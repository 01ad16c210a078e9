/**
  The SQL tool for Postgres: the same steps as the MySQL tool with fixed
  connection settings, the driver's `rowCount` in the result, and errors
  classified by SQLSTATE code.
*/
module ExecuteQuerySupabase {
  import opened Wrappers
  import Text
  import opened Json
  import ExecuteQuery

  const QueryRequired := "SQL_QUERY가 필요하며 문자열 형태여야 합니다."
  const QueryEmpty := "SQL_QUERY가 비어있습니다."

  /** What `client.query` gives: `rows`, the names of `fields` (`None` when absent) and `rowCount`. */
  datatype QueryResult = QueryResult(rows: Json, fields: Option<seq<string>>, rowCount: Json)

  /** An error as the code sees it: `code` (`None` is `undefined`) and `message`. */
  datatype PgError = PgError(code: Option<string>, message: string)

  datatype Client = Client(connect: Option<PgError>, query: string -> Result<QueryResult, PgError>)

  /** `columnOrientedData`: filled only when the rows are a non-empty array and `fields` is present. */
  function ColumnsOf(rows: Json, fields: Option<seq<string>>): Fields {
    if fields.Some? then ExecuteQuery.ColumnsOf(rows, fields.value) else []
  }

  method ColumnOriented(rows: Json, fields: Option<seq<string>>) returns (data: Fields)
    ensures data == ColumnsOf(rows, fields)
  {
    data := [];
    if rows.JArr? && |rows.items| > 0 && fields.Some? {
      ghost var entries := ExecuteQuery.ColumnEntries(rows.items, fields.value);
      for k := 0 to |fields.value|
        invariant data == AssignAll(entries, k)
      {
        data := Set(data, fields.value[k], JArr(ExecuteQuery.Column(rows.items, fields.value[k])));
      }
    }
  }

  /** Without `fields` there are no columns; with them, the columns are those of the MySQL tool. */
  lemma ColumnsShape(rows: Json, fields: Option<seq<string>>, name: string)
    ensures UniqueKeys(ColumnsOf(rows, fields))
    ensures fields.None? || !(rows.JArr? && |rows.items| > 0) ==> ColumnsOf(rows, fields) == []
    ensures fields.Some? && rows.JArr? && |rows.items| > 0 && name in fields.value ==>
      Get(ColumnsOf(rows, fields), name) == Some(JArr(ExecuteQuery.Column(rows.items, name)))
    ensures fields.None? || name !in fields.value ==> Get(ColumnsOf(rows, fields), name) == None
  {
    if fields.Some? {
      ExecuteQuery.ColumnsShape(rows, fields.value, name);
    }
  }

  /** `errorMap`: the type and message of each known SQLSTATE code. */
  function KnownError(code: string): Option<(string, string)> {
    match code
    case "42P01" => Some(("TABLE_NOT_FOUND", "테이블을 찾을 수 없습니다."))
    case "42703" => Some(("COLUMN_NOT_FOUND", "컬럼을 찾을 수 없습니다."))
    case "42601" => Some(("SYNTAX_ERROR", "SQL 문법 오류가 발생했습니다."))
    case "28P01" => Some(("ACCESS_DENIED", "비밀번호가 틀렸거나 접근 권한이 없습니다."))
    case "08006" => Some(("CONNECTION_LOST", "데이터베이스 연결이 끊어졌습니다."))
    case "ECONNREFUSED" => Some(("CONNECTION_ERROR", "DB 연결에 실패했습니다 (Host/Port 확인 필요)"))
    case _ => None
  }

  const KnownCodes := ["42P01", "42703", "42601", "28P01", "08006", "ECONNREFUSED"]
  const KnownTypes := ["TABLE_NOT_FOUND", "COLUMN_NOT_FOUND", "SYNTAX_ERROR", "ACCESS_DENIED", "CONNECTION_LOST", "CONNECTION_ERROR"]

  /** `errorMap[error.code] ?? {type: error.code ?? 'UNKNOWN_ERROR', msg: error.message}`. */
  function Classify(e: PgError): (string, string) {
    var known := if e.code.Some? then KnownError(e.code.value) else None;
    if known.Some? then known.value else (e.code.GetOr("UNKNOWN_ERROR"), e.message)
  }

  /**
    Class 42 (table, column, syntax), class 28 (authentication) and class 08
    (connection) codes of the table get their own type and a fixed message;
    any other code is its own type and no code gives "UNKNOWN_ERROR", with the
    driver's message.
  */
  lemma ClassifyCodes(e: PgError)
    ensures e.code.Some? ==> (KnownError(e.code.value).Some? <==> e.code.value in KnownCodes)
    ensures forall k :: 0 <= k < |KnownCodes| && e.code == Some(KnownCodes[k]) ==> Classify(e).0 == KnownTypes[k]
    ensures e.code.Some? && e.code.value !in KnownCodes ==> Classify(e) == (e.code.value, e.message)
    ensures e.code.None? ==> Classify(e) == ("UNKNOWN_ERROR", e.message)
  {
  }

  datatype Outcome =
    | Rows(columns: Fields, data: Json, rowCount: Json)
    | TooLarge(message: string)
    | Failed(kind: string, message: string, originalMessage: string, code: Option<string>, query: Json)

  function ErrorRecord(e: PgError, query: Json): Outcome {
    var (kind, message) := Classify(e);
    Failed(kind, message, e.message, e.code, query)
  }

  function TooLargeMessage(size: nat): string {
    "결과 데이터가 너무 커서 요약되었습니다. (약 " + ExecuteQuery.Grouped(size) + "자)\n조건을 추가하여 데이터 양을 줄여주세요."
  }

  function Deliver(x: QueryResult, codec: Codec): Outcome {
    var columns := ColumnsOf(x.rows, x.fields);
    var size := Text.Utf16Length(codec.stringify(JObj(columns)));
    if size > ExecuteQuery.MaxLength then TooLarge(TooLargeMessage(size)) else Rows(columns, x.rows, x.rowCount)
  }

  function ExecuteSpec(q: Json, client: Client, codec: Codec): Outcome {
    match ExecuteQuery.CleanQuery(q, QueryRequired, QueryEmpty)
    case Failure(m) => ErrorRecord(PgError(None, m), q)
    case Success(clean) =>
      if client.connect.Some? then ErrorRecord(client.connect.value, JStr(clean))
      else
        match client.query(clean)
        case Failure(e) => ErrorRecord(e, JStr(clean))
        case Success(x) => Deliver(x, codec)
  }

  method ExecuteQuerySupabase(q: Json, client: Client, codec: Codec) returns (r: Outcome)
    ensures r == ExecuteSpec(q, client, codec)
  {
    var cleanQuery := "";
    var error: PgError;
    if !q.JStr? || q.s == "" {
      error := PgError(None, QueryRequired);
    } else {
      cleanQuery := Text.Trim(q.s);
      if cleanQuery == "" {
        error := PgError(None, QueryEmpty);
      } else if client.connect.Some? {
        error := client.connect.value;
      } else {
        var answer := client.query(cleanQuery);
        if answer.Failure? {
          error := answer.error;
        } else {
          var result := answer.value;
          var columns := ColumnOriented(result.rows, result.fields);
          var columnJson := codec.stringify(JObj(columns));
          var size := Text.Utf16Length(columnJson);
          if size > ExecuteQuery.MaxLength {
            return TooLarge(TooLargeMessage(size));
          }
          return Rows(columns, result.rows, result.rowCount);
        }
      }
    }
    r := ErrorRecord(error, if cleanQuery != "" then JStr(cleanQuery) else q);
  }

  /** An invalid query is reported without the database being asked anything. */
  lemma RejectedBeforeConnecting(q: Json, c1: Client, c2: Client, codec: Codec)
    requires ExecuteQuery.CleanQuery(q, QueryRequired, QueryEmpty).Failure?
    ensures ExecuteSpec(q, c1, codec) == ExecuteSpec(q, c2, codec)
    ensures ExecuteSpec(q, c1, codec).Failed? && ExecuteSpec(q, c1, codec).kind == "UNKNOWN_ERROR"
    ensures ExecuteSpec(q, c1, codec).query == q
  {
  }

  /**
    A query that passes the check and runs is answered from the driver's
    result: the columns, the rows and `rowCount` as given, when the columns'
    JSON text is at most 6000 UTF-16 code units long, and only the message
    otherwise. Any other outcome is a failure naming the trimmed query or
    `$SQL_QUERY` itself, carrying the message and code of the error raised
    and the type and message the code maps it to.
  */
  lemma Outcomes(q: Json, client: Client, codec: Codec)
    ensures var r := ExecuteSpec(q, client, codec);
      !r.Failed? <==> q.JStr? && Text.Trim(q.s) != "" && client.connect.None? && client.query(Text.Trim(q.s)).Success?
    ensures var r := ExecuteSpec(q, client, codec);
      r.Rows? ==> var x := client.query(Text.Trim(q.s)).value;
        r.columns == ColumnsOf(x.rows, x.fields) && r.data == x.rows && r.rowCount == x.rowCount &&
        Text.Utf16Length(codec.stringify(JObj(r.columns))) <= ExecuteQuery.MaxLength
    ensures var r := ExecuteSpec(q, client, codec);
      q.JStr? && !r.Failed? ==>
        var x := client.query(Text.Trim(q.s)).value;
        (r.Rows? <==> Text.Utf16Length(codec.stringify(JObj(ColumnsOf(x.rows, x.fields)))) <= ExecuteQuery.MaxLength) &&
        (r.TooLarge? ==> r.message == TooLargeMessage(Text.Utf16Length(codec.stringify(JObj(ColumnsOf(x.rows, x.fields))))))
    ensures var r := ExecuteSpec(q, client, codec);
      r.Failed? ==> r.query == (if q.JStr? && Text.Trim(q.s) != "" then JStr(Text.Trim(q.s)) else q)
    ensures var r := ExecuteSpec(q, client, codec);
      ExecuteQuery.CleanQuery(q, QueryRequired, QueryEmpty).Failure? ==>
        r.originalMessage == ExecuteQuery.CleanQuery(q, QueryRequired, QueryEmpty).error && r.code.None?
    ensures var r := ExecuteSpec(q, client, codec);
      ExecuteQuery.CleanQuery(q, QueryRequired, QueryEmpty).Success? && client.connect.Some? ==>
        r.originalMessage == client.connect.value.message && r.code == client.connect.value.code &&
        r == ErrorRecord(client.connect.value, r.query)
    ensures var r := ExecuteSpec(q, client, codec);
      ExecuteQuery.CleanQuery(q, QueryRequired, QueryEmpty).Success? && q.JStr? && client.connect.None? && r.Failed? ==>
        var e := client.query(Text.Trim(q.s)).error;
        r.originalMessage == e.message && r.code == e.code && (r.kind, r.message) == Classify(e)
  {
  }
}
