# Text-to-SQL tool, settings loader and weather stub — a Dafny model

This project models the deterministic logic of the agent book's TypeScript
samples (`packages/@ai-suburi/core`):

- **The text-to-SQL search tool**, in its OpenAI and LangChain variants. It
  has four parts. `getSchemaInfo` renders the database schema for the language
  model. `generateSQL` decides on the model's structured answer. `executeQuery`
  refuses anything but a `SELECT`, then projects the result rows into columns
  plus cell arrays. `formatResults` renders the pipe-separated text table.
  `textToSqlSearch` chains these steps and turns every failure into a returned
  `エラー: <message>` string.
- **`loadSettings`**, the agent's configuration loader, as a function of the
  process environment.
- **`getWeather`**, the fixed three-city lookup that both function-calling
  demos (Claude and Gemini) offer the model as a tool. The two demos
  define the same table, so one function models both.

Modules: `Wrappers` (Option and Result), `Text` (the JavaScript string
operations the helpers call: `join`, `trim`, `toUpperCase`, `startsWith` and
`substring`; SQLite's ASCII case folding for `LIKE`; and `Split`, which the
helpers never call but which the model uses to read rendered text back into
lines), `SqlQuery`, `SqlFormat`, `SqlSchema`, `TextToSql`, `Settings`
and `Weather`.

The outside world enters only as parameters:

- The database is a function from a statement to its rows or to the
  message of the error it raised (`SqlQuery.Database`).
- A result row is an ordered list of (column, value) pairs. Read as a
  JavaScript object, its keys are the distinct names in order of first
  appearance, and a repeated name yields the last value paired with it.
- The schema catalog is a list of `sqlite_master` entries. Each entry
  carries its `PRAGMA table_info` columns and its stored rows.
- The language model is a function from (schema, keywords) to a chat
  response (OpenAI) or to a query (LangChain), or to an error message.
- `String(value)` on a cell and `JSON.stringify` of the sample rows are
  function parameters (`render`, `stringify`).
- The environment is a `map<string, string>`.

Both text-to-SQL files define the same helpers with the same behaviour.
One module serves both, and the table below cites each file's lines.

## Model

| member | source | states |
|---|---|---|
| `SqlQuery.IsSelectStatement` | packages/@ai-suburi/core/chapter3/test3-11-text-to-sql.ts:147-153 | A statement passes the guard iff the six characters starting at its first non-blank character spell SELECT once upper-cased. Each letter may be in either case, the first may also be long s (U+017F), and the last may also be U+1E97, which upper-cases to T followed by a combining diaeresis. Leading JavaScript whitespace is skipped, and whatever follows the keyword is irrelevant. |
| `SqlQuery.GuardFollowsFullCaseMapping` | packages/@ai-suburi/core/chapter3/test3-11-text-to-sql.ts:148-149 | `selecẗ …` and `ſelect …` pass the guard, whatever follows, because `toUpperCase` turns them into text starting with SELECT. |
| `SqlQuery.GuardSkipsLeadingBlanks` | packages/@ai-suburi/core/chapter3/test3-11-text-to-sql.ts:148-149 | Prefixing a statement with any run of whitespace that `trim` removes (spaces, tabs, line breaks, the ideographic space U+3000, and so on) never changes whether it passes the guard. |
| `SqlQuery.GuardRefusesOtherOpening` | packages/@ai-suburi/core/chapter3/test3-11-text-to-sql-langchain.ts:104-105 | A statement is refused, whatever follows, when its first non-blank character is anything but S, s or long s. |
| `SqlQuery.GuardRefusesOtherStatements` | packages/@ai-suburi/core/chapter3/test3-11-text-to-sql-langchain.ts:104-105 | Any statement that opens, after optional blanks, with INSERT, UPDATE, DELETE, DROP, CREATE, ALTER, PRAGMA or WITH in any letter case (for example `insert into t …` or `with x as (…) select …`) is refused, whatever follows. |
| `SqlQuery.GuardRefusesShortStatements` | packages/@ai-suburi/core/chapter3/test3-11-text-to-sql-langchain.ts:104-105 | A statement with fewer than six characters after its leading blanks, such as `SELEC` or the empty statement, is refused. |
| `SqlQuery.GuardMessage` | packages/@ai-suburi/core/chapter3/test3-11-text-to-sql.ts:150-152 | The refusal message is the fixed prefix, then the first min(50, length) characters of the untrimmed statement, then `...`. |
| `SqlQuery.Lookup` | packages/@ai-suburi/core/chapter3/test3-11-text-to-sql.ts:162 | `row[col]` is undefined exactly when no pair has that name. |
| `SqlQuery.LookupFindsLastPair` | packages/@ai-suburi/core/chapter3/test3-11-text-to-sql.ts:162 | When the name is present, `row[col]` is the value of its last pair: that pair has the name and no later pair does. |
| `SqlQuery.Dedup` | packages/@ai-suburi/core/chapter3/test3-11-text-to-sql.ts:161 | `Object.keys` yields every column name, each exactly once. |
| `SqlQuery.DedupKeepsFirstAppearanceOrder` | packages/@ai-suburi/core/chapter3/test3-11-text-to-sql.ts:161 | The keys are listed in the order in which the names first appear in the row. Together with the previous row this determines the key list completely, so `SELECT a, b, a` gives the keys a, b. |
| `SqlQuery.Project` | packages/@ai-suburi/core/chapter3/test3-11-text-to-sql-langchain.ts:118 | There is one cell array per input row. Each array has one cell per column, and cell (i, j) is row i's value for column j. |
| `SqlQuery.ExecuteQuery` | packages/@ai-suburi/core/chapter3/test3-11-text-to-sql.ts:143-165 | A non-SELECT fails with the guard message. A database error passes through unchanged. An empty result gives no columns and no rows. Otherwise the columns are the first row's keys, the row count is kept, and every row has one cell per column, in column order. |
| `SqlQuery.ProjectionKeepsUniformRows` | packages/@ai-suburi/core/chapter3/test3-11-text-to-sql-langchain.ts:113-120 | Suppose every row carries the same distinct column names. Then the columns are exactly those names, and cell (i, j) is row i's j-th value, so the projection loses nothing. |
| `SqlQuery.RefusalIgnoresDatabase` | packages/@ai-suburi/core/chapter3/test3-11-text-to-sql-langchain.ts:104-111 | A refused statement fails whatever the database would answer. The guard runs before the database is reached. |
| `SqlQuery.SingleValueResult` | packages/@ai-suburi/core/chapter3/test3-11-text-to-sql.ts:157-164 | A one-row, one-column answer projects to that column and that single cell. |
| `SqlFormat.FormatResults` | packages/@ai-suburi/core/chapter3/test3-11-text-to-sql.ts:168-178 | The output is the fixed no-results message iff there are no rows, whatever the columns. A non-empty table always spans several lines. |
| `SqlFormat.TableLines` | packages/@ai-suburi/core/chapter3/test3-11-text-to-sql.ts:173-177 | A non-empty table has one line per row plus the header and the separator: rows+2 lines. |
| `SqlFormat.FormatResultsLines` | packages/@ai-suburi/core/chapter3/test3-11-text-to-sql-langchain.ts:124-134 | Assume no cell or name contains a line break. Split at line breaks, the output is exactly rows+2 lines: the header, the separator, then each row's cells joined by a space, a vertical bar and a space, in input order. |
| `SqlFormat.SeparatorLineShape` | packages/@ai-suburi/core/chapter3/test3-11-text-to-sql.ts:174 | The separator has one `---` per column, joined by a space, a vertical bar and a space, so it is 6n-3 characters long for n ≥ 1 columns and empty for none. |
| `SqlFormat.SingleCellTable` | packages/@ai-suburi/core/chapter3/test3-11-text-to-sql-langchain.ts:129-133 | A one-column, one-row result renders as the name, `---` and the cell, on three lines. |
| `SqlSchema.ListedTables` | packages/@ai-suburi/core/chapter3/test3-11-text-to-sql.ts:56-60 | An entry is listed iff it is in the catalog, is a table, and its name is not LIKE `sqlite_%`. That pattern is ASCII case-insensitive, and `_` matches any single character. No more entries are listed than the catalog holds. |
| `SqlSchema.ListedTablesAppend` | packages/@ai-suburi/core/chapter3/test3-11-text-to-sql.ts:56-60 | The listing of two catalogs in sequence is the listing of the first followed by that of the second, so the listing keeps catalog order and repeats nothing. |
| `SqlSchema.ListedTablesSingle` | packages/@ai-suburi/core/chapter3/test3-11-text-to-sql.ts:56-60 | A single catalog entry is listed exactly when it is a user table. With the previous row this fixes the listing as the catalog filtered by the query's condition. |
| `SqlSchema.ColumnDef` | packages/@ai-suburi/core/chapter3/test3-11-text-to-sql.ts:76-83 | A column renders as its name, its type, then ` PRIMARY KEY` if it is a key column, then ` NOT NULL` if it is non-null, in that order. |
| `SqlSchema.CreateLine` | packages/@ai-suburi/core/chapter3/test3-11-text-to-sql.ts:85 | The line opens with `CREATE TABLE`, the table name and an opening parenthesis, and closes with a parenthesis. A table without columns gives `()`, and a one-column table gives just that column's definition inside the parentheses. |
| `SqlSchema.CreateLineAddsColumn` | packages/@ai-suburi/core/chapter3/test3-11-text-to-sql.ts:76-85 | Adding a column to a table with at least one column inserts `, ` and the new column's definition before the closing parenthesis. With the zero- and one-column forms, this makes the line the column definitions in column order, separated by a comma and a space. |
| `SqlSchema.SampleRows` | packages/@ai-suburi/core/chapter3/test3-11-text-to-sql.ts:88-90 | The sample is the table's first min(3, rows) rows. |
| `SqlSchema.TableLines` | packages/@ai-suburi/core/chapter3/test3-11-text-to-sql-langchain.ts:76-93 | A table contributes its `CREATE TABLE` line. It adds the two sample comment lines iff it holds at least one row, so it contributes 3 lines or 1. |
| `SqlSchema.SchemaLinesCount` | packages/@ai-suburi/core/chapter3/test3-11-text-to-sql-langchain.ts:64-94 | For any tables, the blocks together have the sum of their 3-or-1 line counts. |
| `SqlSchema.SchemaLinesAreSingleLine` | packages/@ai-suburi/core/chapter3/test3-11-text-to-sql-langchain.ts:85-93 | Assume no table name, column name, type or sample text contains a line break. Then no line of the schema does either. |
| `SqlSchema.SchemaInfo` | packages/@ai-suburi/core/chapter3/test3-11-text-to-sql.ts:55-98 | The schema text is empty iff no table is listed. Otherwise it opens with the first listed table's `CREATE TABLE` line. |
| `SqlSchema.SchemaInfoLines` | packages/@ai-suburi/core/chapter3/test3-11-text-to-sql.ts:55-98 | Assume at least one table is listed and no table name, column name, type or sample text contains a line break. Then the schema text read back at line breaks is exactly the listed tables' blocks, in catalog order, and has their total line count. |
| `TextToSql.GenerateSql` | packages/@ai-suburi/core/chapter3/test3-11-text-to-sql.ts:131-139 | The call succeeds iff the first choice has a parsed query. Without one, a non-empty refusal yields the refusal error, and otherwise the fixed parse-failure error. |
| `TextToSql.GenerateWithChat` | packages/@ai-suburi/core/chapter3/test3-11-text-to-sql.ts:101-140 | `generateSQL` fails with the client's error when the chat call fails. Otherwise it is the decision on the response. |
| `TextToSql.Answer` | packages/@ai-suburi/core/chapter3/test3-11-text-to-sql.ts:206-216 | A generation error, a guard refusal or a database error is the outcome's error, whichever comes first. Otherwise the outcome is the formatted table, which is the no-results text iff the database returned no rows. |
| `TextToSql.ToolOutput` | packages/@ai-suburi/core/chapter3/test3-11-text-to-sql-langchain.ts:193-197 | Text is returned as it is, and an error becomes `エラー: ` followed by its message. |
| `TextToSql.Search` | packages/@ai-suburi/core/chapter3/test3-11-text-to-sql.ts:193-225 | The OpenAI tool always returns text. A failed call, a refusal or a parse failure becomes `エラー: <message>`. Otherwise the text is the tool output of running the query. |
| `TextToSql.SearchWithChain` | packages/@ai-suburi/core/chapter3/test3-11-text-to-sql-langchain.ts:167-198 | The LangChain tool always returns text. A chain error, a non-SELECT or a database error becomes `エラー: <message>`. Otherwise the text is the formatted table of the executed query. |
| `TextToSql.SingleValueAnswer` | packages/@ai-suburi/core/chapter3/test3-11-text-to-sql-langchain.ts:183-189 | A SELECT whose result is a single value answers `col\n---\nvalue`. |
| `TextToSql.NonSelectNeverReachesDatabase` | packages/@ai-suburi/core/chapter3/test3-11-text-to-sql.ts:206-210 | When the model's statement is not a SELECT, the tool returns `エラー: ` plus the guard message, for any database. |
| `TextToSql.ToolsAgreeOnSameQuery` | packages/@ai-suburi/core/chapter3/test3-11-text-to-sql-langchain.ts:177-185 | Suppose the OpenAI variant's `generateSQL` outcome equals the chain's outcome, whether a query or an error, including a failed chat call. Then the two variants return the same text. |
| `Settings.LoadSettings` | packages/@ai-suburi/core/chapter4/configs.ts:7-18 | Loading fails with the fixed "is required" error iff the key is unset or empty. On success the key is the non-empty environment value. A base URL or model that is set, even to an empty string, is kept, and an unset one falls back to `https://api.openai.com/v1` or `gpt-4o`. |
| `Settings.LoadSettingsRoundTrip` | packages/@ai-suburi/core/chapter4/configs.ts:13-17 | Writing any settings value with a non-empty key into the environment and loading it gives the same value back. |
| `Settings.LoadSettingsReadsOnlyItsVariables` | packages/@ai-suburi/core/chapter4/configs.ts:8-11 | Environments that agree on the three variables load to the same outcome, so no other variable is consulted. |
| `Settings.LoadSettingsEmptyValues` | packages/@ai-suburi/core/chapter4/configs.ts:9-15 | An empty key is refused like a missing one, an empty base URL is kept, and unset optional values take their defaults. |
| `Weather.GetWeather` | packages/@ai-suburi/core/chapter3/test3-6-function-calling-claude.ts:13-20 | The lookup gives Tokyo, Osaka and Kyoto their fixed reports. The fallback text comes back iff the name is none of the three. |
| `Weather.ReportIdentifiesCity` | packages/@ai-suburi/core/chapter3/test3-6-function-calling-gemini.ts:12-17 | No two cities share a report, so a report other than the fallback text identifies the city that was asked for. |
| `Weather.LookupIsCaseSensitive` | packages/@ai-suburi/core/chapter3/test3-6-function-calling-gemini.ts:18 | `tokyo`, `TOKYO` and the empty name get the fallback text. |

## Left out

- The multi-step agent loop (plan, tool selection, answer, reflection). Its module `agent.js` is not part of this model, and the chapter 4 test scripts (`chapter4/test/*.ts`) only call into it.
- `chapter4/models.ts`: type and schema declarations with no behaviour.
- All language-model requests (chat, structured output, Responses API, embeddings) are left out as foreign calls. Only the decision on their parsed result is modelled. A failure to construct the OpenAI client is folded into the model call's error.
- better-sqlite3 is not modelled. `initializeDatabase` and its seed rows, `prepare(...).all()` and `PRAGMA table_info` become parameters. `db.close()` is dropped; it does not affect the result. The model does not require the catalog and the query function to describe the same database.
- `JSON.stringify` of sample rows and `String` of a SQLite value are opaque parameters. An absent cell renders as `undefined`.
- Console logging and `custom-logger.ts`: output only, with no effect on results.
- `cosineSimilarity` in the embeddings demos: floating-point arithmetic.
- `SqlQuery.IsSelectStatement`: upper-casing follows Unicode's full case mapping only for ASCII letters and for the characters whose upper case begins with S, E, L, C or T: long s, sharp s, t with diaeresis, and the ligatures U+FB05 and U+FB06. Every other character is kept as it is. This leaves the guard's verdict unchanged, since only the first six upper-cased characters decide it and no other character upper-cases to text beginning with one of those letters. Language-specific (locale) mappings do not apply to `toUpperCase`.
- `SqlQuery.GuardMessage`: the 50-character snippet counts Unicode scalar values, while JavaScript counts UTF-16 code units. The two differ only for characters outside the Basic Multilingual Plane.
- `SqlQuery.Dedup`: JavaScript lists integer-like property names first, in ascending order. That ordering rule is not modelled; keys keep the order in which they first appear.
- `SqlQuery.DedupKeepsFirstAppearanceOrder`: states first-appearance order for every name, integer-like ones included, although JavaScript would list those first in ascending order.
- `SqlSchema.SchemaInfo`: table names are assumed free of quote characters. The source splices each name into `PRAGMA table_info('…')` and `SELECT * FROM "…" LIMIT 3`. A name holding `'` or `"` can make SQLite reject the statement, and the tool then returns `エラー: ` with SQLite's message before the model is called. The model always renders a schema, and it does not model errors raised while reading the catalog.
- `SqlSchema.SampleRows`: `LIMIT 3` without `ORDER BY` is taken to return the first three stored rows.
- `TextToSql.ToolOutput`: a thrown value that is not an `Error` would be rendered by `String(e)`. Every failure modelled here carries a message.
- `Weather.GetWeather`: lookups of inherited object properties such as `constructor` are not modelled.
- The demos' `main` functions, the chapter 3 chat and structured-output scripts, and the chapter 4 test harnesses: entry points with no logic of their own.
