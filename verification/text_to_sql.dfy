/** `generateSQL` and the two `textToSqlSearch` tools: the OpenAI variant,
    which parses a chat-completion response itself, and the LangChain
    variant, whose structured-output chain yields the query directly. The
    language model and the database are parameters. */
module TextToSql {
  import opened Wrappers
  import opened SqlQuery
  import SqlFormat
  import SqlSchema

  /** The structured output the model is asked for. */
  datatype GeneratedQuery = GeneratedQuery(sql: string, explanation: string)

  /** `choices[k].message` of a parsed chat completion. */
  datatype ChatMessage = ChatMessage(parsed: Option<GeneratedQuery>, refusal: Option<string>)

  datatype ChatResponse = ChatResponse(choices: seq<ChatMessage>)

  /** The chat-completion call: (schema, keywords) to a response, or the
      message of the error the client raised. */
  type ChatModel = (string, string) -> Result<ChatResponse, string>

  /** The LangChain prompt-plus-structured-output chain: (schema, keywords)
      to a query, or the message of the error it raised. */
  type SqlChain = (string, string) -> Result<GeneratedQuery, string>

  const RefusalPrefix: string := "LLMがリクエストを拒否しました: "
  const ParseFailure: string := "LLMからの構造化出力のパースに失敗しました"
  const ErrorPrefix: string := "エラー: "
  /** What `String(undefined)` gives. */
  const UndefinedText: string := "undefined"

  /** The model declined, with a non-empty refusal text. */
  predicate Refused(response: ChatResponse)
  {
    |response.choices| > 0
      && response.choices[0].refusal.Some?
      && response.choices[0].refusal.value != ""
  }

  /** `generateSQL`'s decision on the response: the first choice's parsed
      query if there is one; otherwise a refusal error when the model gave a
      non-empty refusal, and a parse error when it did not. */
  function GenerateSql(response: ChatResponse): (r: Result<GeneratedQuery, string>)
    ensures r.Success? <==> |response.choices| > 0 && response.choices[0].parsed.Some?
    ensures r.Success? ==> r.value == response.choices[0].parsed.value
    ensures r.Failure? && Refused(response) ==> r.error == RefusalPrefix + response.choices[0].refusal.value
    ensures r.Failure? && !Refused(response) ==> r.error == ParseFailure
  {
    if |response.choices| > 0 && response.choices[0].parsed.Some? then
      Success(response.choices[0].parsed.value)
    else if Refused(response) then
      Failure(RefusalPrefix + response.choices[0].refusal.value)
    else
      Failure(ParseFailure)
  }

  /** `generateSQL(client, schema, keywords)`: the chat call, whose error
      propagates, followed by the decision on its response. */
  function GenerateWithChat(chat: ChatModel, schema: string, keywords: string): (r: Result<GeneratedQuery, string>)
    ensures chat(schema, keywords).Failure? ==> r == Failure(chat(schema, keywords).error)
    ensures chat(schema, keywords).Success? ==> r == GenerateSql(chat(schema, keywords).value)
  {
    match chat(schema, keywords)
    case Success(response) => GenerateSql(response)
    case Failure(message) => Failure(message)
  }

  /** `String(cell)`, with `render` standing for `String` on a SQLite value. */
  function RenderCell(render: Value -> string, cell: Option<Value>): string
  {
    match cell
    case Some(v) => render(v)
    case None => UndefinedText
  }

  /** `String` on a result cell. */
  function CellText(render: Value -> string): Option<Value> -> string
  {
    (c: Option<Value>) => RenderCell(render, c)
  }

  /** The part both tools share once the query is generated: run it and
      format the rows, or fail with the first error met. */
  function Answer(generated: Result<GeneratedQuery, string>, db: Database, render: Value -> string): (r: Result<string, string>)
    ensures generated.Failure? ==> r == Failure(generated.error)
    ensures generated.Success? && !IsSelectStatement(generated.value.sql) ==>
      r == Failure(GuardMessage(generated.value.sql))
    ensures generated.Success? && IsSelectStatement(generated.value.sql) && db(generated.value.sql).Failure? ==>
      r == Failure(db(generated.value.sql).error)
    ensures generated.Success? && IsSelectStatement(generated.value.sql) && db(generated.value.sql).Success? ==>
      var result := ExecuteQuery(db, generated.value.sql).value;
      && r.Success?
      && r.value == SqlFormat.FormatResults(result.columns, result.rows, CellText(render))
      && (r.value == SqlFormat.NoResults <==> |db(generated.value.sql).value| == 0)
  {
    var query :- generated;
    var result :- ExecuteQuery(db, query.sql);
    Success(SqlFormat.FormatResults(result.columns, result.rows, CellText(render)))
  }

  /** The `catch` of both tools: an error becomes the returned text
      `エラー: <message>` instead of propagating. */
  function ToolOutput(outcome: Result<string, string>): (text: string)
    ensures outcome.Success? ==> text == outcome.value
    ensures outcome.Failure? ==> text == ErrorPrefix + outcome.error
  {
    match outcome
    case Success(s) => s
    case Failure(message) => ErrorPrefix + message
  }

  /** `textToSqlSearch` of the OpenAI variant. It always returns text: a
      failed call, a refusal, an unparsed response, a refused statement and
      a database error each become `エラー: ` followed by that failure's
      message. */
  function Search(
    keywords: string,
    catalog: seq<SqlSchema.CatalogEntry>,
    stringify: seq<Row> -> string,
    chat: ChatModel,
    db: Database,
    render: Value -> string): (r: string)
    ensures var response := chat(SqlSchema.SchemaInfo(catalog, stringify), keywords);
      && (response.Failure? ==> r == ErrorPrefix + response.error)
      && (response.Success? && GenerateSql(response.value).Failure? ==>
            r == ErrorPrefix + GenerateSql(response.value).error)
      && (response.Success? && GenerateSql(response.value).Success? ==>
            r == ToolOutput(Answer(GenerateSql(response.value), db, render)))
  {
    var schema := SqlSchema.SchemaInfo(catalog, stringify);
    ToolOutput(Answer(GenerateWithChat(chat, schema, keywords), db, render))
  }

  /** `textToSqlSearch` of the LangChain variant: the same pipeline with the
      chain's query, and any failure returned as `エラー: <message>`. */
  function SearchWithChain(
    keywords: string,
    catalog: seq<SqlSchema.CatalogEntry>,
    stringify: seq<Row> -> string,
    chain: SqlChain,
    db: Database,
    render: Value -> string): (r: string)
    ensures var generated := chain(SqlSchema.SchemaInfo(catalog, stringify), keywords);
      && (generated.Failure? ==> r == ErrorPrefix + generated.error)
      && (generated.Success? && !IsSelectStatement(generated.value.sql) ==>
            r == ErrorPrefix + GuardMessage(generated.value.sql))
      && (generated.Success? && IsSelectStatement(generated.value.sql) && db(generated.value.sql).Failure? ==>
            r == ErrorPrefix + db(generated.value.sql).error)
      && (generated.Success? && IsSelectStatement(generated.value.sql) && db(generated.value.sql).Success? ==>
            var result := ExecuteQuery(db, generated.value.sql).value;
            r == SqlFormat.FormatResults(result.columns, result.rows, CellText(render)))
  {
    var schema := SqlSchema.SchemaInfo(catalog, stringify);
    ToolOutput(Answer(chain(schema, keywords), db, render))
  }

  /** A SELECT whose answer is a single value comes back as a three-line
      table: the column name, `---`, and the value's text. */
  lemma SingleValueAnswer(db: Database, render: Value -> string, query: GeneratedQuery, col: string, v: Value)
    requires IsSelectStatement(query.sql)
    requires db(query.sql) == Success([[(col, v)]])
    ensures Answer(Success(query), db, render) == Success(col + "\n---\n" + render(v))
  {
    SingleValueResult(db, query.sql, col, v);
    var show := CellText(render);
    assert show(Some(v)) == render(v);
    SqlFormat.SingleCellTable(col, Some(v), show);
  }

  /** When the model answers with a statement that is not a SELECT, the
      OpenAI tool returns the guard's message whatever the database holds. */
  lemma {:induction false} NonSelectNeverReachesDatabase(
    keywords: string,
    catalog: seq<SqlSchema.CatalogEntry>,
    stringify: seq<Row> -> string,
    chat: ChatModel,
    db1: Database,
    db2: Database,
    render: Value -> string)
    requires var response := chat(SqlSchema.SchemaInfo(catalog, stringify), keywords);
      && response.Success? && GenerateSql(response.value).Success?
      && !IsSelectStatement(GenerateSql(response.value).value.sql)
    ensures var sql := GenerateSql(chat(SqlSchema.SchemaInfo(catalog, stringify), keywords).value).value.sql;
      && Search(keywords, catalog, stringify, chat, db1, render) == ErrorPrefix + GuardMessage(sql)
      && Search(keywords, catalog, stringify, chat, db2, render) == ErrorPrefix + GuardMessage(sql)
  {
    var sql := GenerateSql(chat(SqlSchema.SchemaInfo(catalog, stringify), keywords).value).value.sql;
    RefusalIgnoresDatabase(db1, db2, sql);
  }

  /** The two tools differ only in how the query is produced: given the
      same query, or the same error, they return the same text. */
  lemma ToolsAgreeOnSameQuery(
    keywords: string,
    catalog: seq<SqlSchema.CatalogEntry>,
    stringify: seq<Row> -> string,
    chat: ChatModel,
    chain: SqlChain,
    db: Database,
    render: Value -> string)
    requires var schema := SqlSchema.SchemaInfo(catalog, stringify);
      GenerateWithChat(chat, schema, keywords) == chain(schema, keywords)
    ensures Search(keywords, catalog, stringify, chat, db, render)
         == SearchWithChain(keywords, catalog, stringify, chain, db, render)
  {
  }
}
