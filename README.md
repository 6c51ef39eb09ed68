# SQLite dialect of the schema-migration ledger, in Dafny

This project models the SQLite dialect of a migration tool that records
applied migrations in a ledger table inside the target database
(`sqlite.go`). It covers the dialect's pure parts:

- **Identifier quoter** (`QuotedTableName`). A schema name and a table name
  are joined with no separator. An empty join gives the empty string. Any
  other join becomes a SQL delimited identifier, built one rune at a time:
  whitespace runes are dropped, each `"` is written as `""`, each `;` is
  dropped, and every other rune is copied. Doubling the quote is the
  `<delimited identifier>` rule of ISO/IEC 9075-2 (SQL Foundation),
  section 5.2.
- **Ledger statements** (`CreateSQL`, `InsertSQL`). Two fixed texts, each
  with one `%s` slot where the ledger table's name is spliced in verbatim.

Files:

- `wrappers.dfy`: module `Wrappers`, an `Option` type for decoders that may
  reject their input.
- `unicode.dfy`: module `Unicode`, the predicate `IsSpace`. It follows Go's
  `unicode.IsSpace`. Up to U+00FF the spaces are `\t \n \v \f \r`, space,
  U+0085 and U+00A0. Above U+00FF a rune is a space when it has the Unicode
  White_Space property: U+1680, U+2000–U+200A, U+2028, U+2029, U+202F,
  U+205F and U+3000.
- `quoting.dfy`: module `SqliteQuoting`. `Quoted` is the recursive
  specification of the quoter. `QuotedTableName` is the source's loop: it
  starts from the opening quote, appends each rune's escape (or skips the
  rune with `continue`), then appends the closing quote. It is proved equal to
  `Quoted`. The lemmas state what callers rely on:
  - the shape of the output;
  - the runes it can never contain;
  - that it has no lone quote;
  - that reading it back as a delimited identifier (`Unquote`) gives the
    input minus whitespace and `;`;
  - its length;
  - when two names quote alike.
- `ledger_sql.dfy`: module `SqliteLedger`. The two statements are copied
  exactly, with tabs and line breaks. `LedgerColumns` declares the ledger's
  four columns once. The lemmas show the following:
  - the table name sits right after the keywords;
  - the name can be read back, so different names give different
    statements;
  - the CREATE TABLE text defines the declared columns in order, with their
    types, NOT NULL markers and defaults;
  - the INSERT text names the same columns in the same order, with one `?`
    per column, four in all.

Strings are `seq<char>`. A Dafny `char` is a Unicode scalar value, which is
what Go's `range` over a string yields once the string is valid UTF-8.

`QuotedTableName` and `Quoted` have no precondition. The quoter is total:
every input, including one made only of whitespace and `;`, gives a result.
Such an input gives `""`, the empty delimited identifier; `QuotedLength`
with an empty `Filter` shows this.

## Model

| member | source | states |
|---|---|---|
| `SqliteQuoting.QuotedTableName` | sqlite.go:70-95 | For every schema and table name, the rune-by-rune builder loop returns exactly `Quoted(schemaName, tableName)`. There is no precondition and no error path. |
| `SqliteQuoting.Quoted` | sqlite.go:71-93 | The result is empty exactly when `schemaName + tableName` is empty. Otherwise it has at least two runes and starts and ends with `"`. |
| `SqliteQuoting.Filter` | sqlite.go:80-88 | The reference for what survives quoting. The result is no longer than the input. It holds only runes that are neither whitespace nor `;`. Every such rune of the input appears in it. |
| `Unicode.IsSpaceExactly` | sqlite.go:80 | `IsSpace`, Go's `unicode.IsSpace`, holds exactly for the 25 White_Space code points listed in `WhiteSpace`. These are the Latin-1 spaces `\t \n \v \f \r`, space, U+0085 and U+00A0, then U+1680, U+2000–U+200A, U+2028, U+2029, U+202F, U+205F and U+3000. Any other rune, such as U+180E, U+200B or U+FEFF, is not a space. |
| `SqliteQuoting.EscapeRuneCases` | sqlite.go:79-91 | What one rune becomes. A whitespace rune or a `;` becomes nothing, and those are the only runes that vanish. A `"` becomes `""`. Every other rune is copied as itself. No rune other than the input rune ever appears. |
| `SqliteQuoting.EscapeAppend` | sqlite.go:78-92 | Escaping distributes over concatenation. So escaping the whole name equals escaping it one rune at a time, as the builder does. |
| `SqliteQuoting.EscapeKeptOnly` | sqlite.go:80-88 | Escaped text holds no whitespace rune and no `;`. |
| `SqliteQuoting.EscapePaired` | sqlite.go:83-85 | In escaped text every `"` starts a `""` pair. No lone quote can occur. |
| `SqliteQuoting.UnescapeDefinedIff` | sqlite.go:83-85 | Collapsing `""` pairs succeeds exactly when the text has no lone quote. Both directions are proved. |
| `SqliteQuoting.UnescapeEscape` | sqlite.go:78-92 | Unescaping the escaped text gives the input with whitespace and `;` removed, in the original order. |
| `SqliteQuoting.EscapeUnescape` | sqlite.go:78-92 | Take text with no whitespace and no `;` that unescapes to `x`. Escaping `x` gives back exactly that text. So the quoter can produce every such well-formed interior. |
| `SqliteQuoting.EscapeFilter` | sqlite.go:80-88 | Removing whitespace and `;` first does not change the escaped text. |
| `SqliteQuoting.EscapeLength` | sqlite.go:78-92 | The escaped length is the number of kept runes plus the number of `"` runes. Each `"` costs two runes; every other kept rune costs one. |
| `SqliteQuoting.EscapePlain` | sqlite.go:89-90 | Text with no whitespace, no `;` and no `"` is copied unchanged. |
| `SqliteQuoting.QuotedExcludes` | sqlite.go:80-88 | No rune of a quoted name is whitespace or `;`. |
| `SqliteQuoting.QuotedNoLoneQuote` | sqlite.go:83-85 | Between the outer delimiters of a non-empty quoted name, every `"` is part of a `""` pair. |
| `SqliteQuoting.QuotedRoundTrip` | sqlite.go:76-93 | Strip the outer quotes of a non-empty quoted name and collapse each `""`. The result is exactly the joined input with whitespace and `;` removed. |
| `SqliteQuoting.QuotedLength` | sqlite.go:76-93 | For a non-empty join, the length is 2 + the number of kept runes + the number of `"` runes. |
| `SqliteQuoting.QuotedSameIff` | sqlite.go:71-93 | Two non-empty joins quote to the same identifier exactly when they agree once whitespace and `;` are removed. |
| `SqliteQuoting.QuotedPlain` | sqlite.go:89-93 | A join with no whitespace, `;` or `"` is simply wrapped in quotes. |
| `SqliteQuoting.QuotedDropsSpace` | sqlite.go:80-82 | Worked case: schema `my db` with table `t` quotes to `"mydbt"`. |
| `SqliteQuoting.QuotedDoublesQuote` | sqlite.go:83-85 | Worked case: table `a"b` quotes to `"a""b"`. |
| `SqliteQuoting.QuotedDropsTerminator` | sqlite.go:86-88 | Worked case: schema `t` with table `;x` quotes to `"tx"`. |
| `SqliteLedger.CreateSQL` | sqlite.go:17-25 | `CREATE TABLE IF NOT EXISTS ` followed by the table name verbatim starts at offset 3. Cutting the fixed head and tail off the statement gives back exactly the name. |
| `SqliteLedger.InsertSQL` | sqlite.go:29-36 | `INSERT INTO ` followed by the table name verbatim starts at offset 3. Cutting the fixed head and tail off the statement gives back exactly the name. |
| `SqliteLedger.StatementsDistinguishTables` | sqlite.go:17-36 | Different table names give different CREATE statements and different INSERT statements. |
| `SqliteLedger.CreateDefinesLedgerColumns` | sqlite.go:18-24 | The column part of CREATE TABLE is the declared ledger columns, one per line and in order: `id`, `checksum`, `execution_time_in_millis`, `applied_at`. Each has its type, NOT NULL marker and default. |
| `SqliteLedger.InsertBindsLedgerColumns` | sqlite.go:30-35 | The INSERT column list is the ledger's column names in declaration order. The VALUES tuple has one placeholder per column. |
| `SqliteLedger.InsertPlaceholderCount` | sqlite.go:30-35 | The INSERT statement adds exactly four placeholders, one per ledger column, to any the table name itself holds. |

## Left out

- `GetAppliedMigrations` (sqlite.go:40-66) is not modelled. It is a thin wrapper over the database driver's query and row cursor (`Query`, `Next`, `Scan`, `Close`), whose behaviour is not visible here. Its conversion of `applied_at` to `time.Local` depends on the host's timezone. In prose:
  - it starts from an empty, non-nil list;
  - it returns that list and the query error when the query fails;
  - on a scan failure, it returns the rows read so far with an error that names the table and wraps the scan error;
  - otherwise it returns the rows the cursor yielded, in `id` order. An error that ends the iteration early (sqlite.go:54) is reported only by `rows.Err()`, which the function never checks. The final return (sqlite.go:65) passes back the `err` left by `Query` and `Scan`, which is nil on this path. So a shortened list can come back with a nil error.
- The `SQLite` package-level instance (sqlite.go:11) is left out. It is stateless wiring with no behaviour.
- Go's UTF-8 decoding in `range` over a string is left out. It turns each invalid byte into U+FFFD. The model takes the name as a sequence of code points.
- `Unicode.IsSpace` follows the White_Space property as Go's `unicode` tables list it. A later Unicode version that changed that property is not modelled.
- `fmt.Sprintf` is modelled only for one `%s` verb with a string argument, which is how both statements use it.
- The table name given to `CreateSQL` and `InsertSQL` is not checked or quoted by them. The model splices it verbatim, as the source does.
