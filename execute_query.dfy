/**
  The SQL tool for MySQL: check the query and the connection settings, run
  the query, turn the rows into one array per column, refuse results whose
  JSON text is too long, and classify driver errors.
  The driver is given as values: whether connecting fails, and what running
  a query returns.
*/
module ExecuteQuery {
  import opened Wrappers
  import Text
  import opened Json

  /** The longest JSON text of the columns that is returned as it is. */
  const MaxLength := 6000

  /** An error as the code sees it: `code`, `message`, `errno`, `sqlState`; `None` is `undefined`. */
  datatype DriverError = DriverError(code: Option<string>, message: string, errno: Option<int>, sqlState: Option<string>)

  /** `new Error(message)`: no code, errno or SQL state. */
  function PlainError(message: string): DriverError {
    DriverError(None, message, None, None)
  }

  /** What running a query gives: `rows` (an array of row objects, or a result header) and the names of its `fields`. */
  datatype Execution = Execution(rows: Json, fields: seq<string>)

  /** The database as far as the tool sees it: the outcome of connecting, and the outcome of each query. */
  datatype Driver = Driver(connect: Option<DriverError>, execute: string -> Result<Execution, DriverError>)

  /** The five settings `$rdb_host`, `$rdb_port`, `$rdb_user`, `$rdb_password`, `$rdb_database`. */
  datatype DbConfig = DbConfig(host: Option<Json>, port: Option<Json>, user: Option<Json>, password: Option<Json>, database: Option<Json>)

  const QueryRequired := "SQL_QUERY is required and must be a string"
  const QueryEmpty := "SQL_QUERY cannot be empty"
  const ConfigMissing := "Missing required DB config: one of host/port/user/password is undefined"

  // ---------------------------------------------------------------------------
  // Validation
  // ---------------------------------------------------------------------------

  /**
    The query to run: `$SQL_QUERY` trimmed, when it is a string with something
    besides white space; otherwise the message of the error the check throws
    (`required` for a falsy or non-string value, `empty` for white space only).
  */
  function CleanQuery(q: Json, required: string, empty: string): (r: Result<string, string>)
    ensures r.Success? <==> q.JStr? && Text.Trim(q.s) != ""
    ensures r.Success? ==> r.value == Text.Trim(q.s) && r.value != ""
    ensures r.Failure? ==> r.error == (if q.JStr? && q.s != "" then empty else required)
  {
    if !q.JStr? || q.s == "" then Failure(required)
    else if Text.Trim(q.s) == "" then Failure(empty)
    else Success(Text.Trim(q.s))
  }

  /** A string of white space trims to nothing. */
  lemma {:induction false} BlankTrimsToEmpty(s: string)
    requires forall i :: 0 <= i < |s| ==> Text.IsJsSpace(s[i])
    ensures Text.Trim(s) == ""
  {
    AllLeading(s);
  }

  lemma {:induction false} AllLeading(s: string)
    requires forall i :: 0 <= i < |s| ==> Text.IsJsSpace(s[i])
    ensures Text.LeadingSpaces(s) == |s|
    decreases |s|
  {
    if s != [] {
      AllLeading(s[1..]);
    }
  }

  /** A white-space-only query is rejected as empty, whatever the white space. */
  lemma BlankQueryRejected(s: string, required: string, empty: string)
    requires s != [] && forall i :: 0 <= i < |s| ==> Text.IsJsSpace(s[i])
    ensures CleanQuery(JStr(s), required, empty) == Failure(empty)
  {
    BlankTrimsToEmpty(s);
  }

  /** Every setting is present and truthy. */
  predicate ConfigComplete(c: DbConfig) {
    !JsFalsy(c.host) && !JsFalsy(c.port) && !JsFalsy(c.user) && !JsFalsy(c.password) && !JsFalsy(c.database)
  }

  // ---------------------------------------------------------------------------
  // Rows to columns
  // ---------------------------------------------------------------------------

  /** `row[name]`; an absent value is `undefined`, which the JSON text shows as `null`. */
  function Cell(row: Json, name: string): Json {
    if row.JObj? then Get(row.fields, name).GetOr(JNull) else JNull
  }

  /** `rows.map(row => row[name])`. */
  function Column(rows: seq<Json>, name: string): (c: seq<Json>)
    ensures |c| == |rows| && forall i :: 0 <= i < |rows| ==> c[i] == Cell(rows[i], name)
  {
    seq(|rows|, i requires 0 <= i < |rows| => Cell(rows[i], name))
  }

  /** The assignments the field loop makes, one per field in order. */
  function ColumnEntries(rows: seq<Json>, fields: seq<string>): (es: Fields)
    ensures |es| == |fields| && forall k :: 0 <= k < |fields| ==> es[k] == (fields[k], JArr(Column(rows, fields[k])))
  {
    seq(|fields|, k requires 0 <= k < |fields| => (fields[k], JArr(Column(rows, fields[k]))))
  }

  /** `columnOrientedData` after the loop: filled only when `rows` is a non-empty array. */
  function ColumnsOf(rows: Json, fields: seq<string>): Fields {
    if rows.JArr? && |rows.items| > 0 then AssignAll(ColumnEntries(rows.items, fields), |fields|) else []
  }

  /** The field loop, one assignment `columnOrientedData[field.name] = ...` per field. */
  method ColumnOriented(rows: Json, fields: seq<string>) returns (data: Fields)
    ensures data == ColumnsOf(rows, fields)
  {
    data := [];
    if rows.JArr? && |rows.items| > 0 {
      ghost var entries := ColumnEntries(rows.items, fields);
      for k := 0 to |fields|
        invariant data == AssignAll(entries, k)
      {
        data := Set(data, fields[k], JArr(Column(rows.items, fields[k])));
      }
    }
  }

  /**
    With non-empty rows there is one key per distinct field name, and each
    holds that field's values, one per row in row order; with no rows, or a
    result that is not an array, the columns are `{}`.
  */
  lemma ColumnsShape(rows: Json, fields: seq<string>, name: string)
    ensures UniqueKeys(ColumnsOf(rows, fields))
    ensures !(rows.JArr? && |rows.items| > 0) ==> ColumnsOf(rows, fields) == []
    ensures rows.JArr? && |rows.items| > 0 && name in fields ==> Get(ColumnsOf(rows, fields), name) == Some(JArr(Column(rows.items, name)))
    ensures name !in fields ==> Get(ColumnsOf(rows, fields), name) == None
  {
    if rows.JArr? && |rows.items| > 0 {
      var es := ColumnEntries(rows.items, fields);
      AssignAllUnique(es, |fields|);
      if name in fields {
        var j :| 0 <= j < |fields| && fields[j] == name;
        AssignAllAgreeing(es, |fields|, j, (f: string) => JArr(Column(rows.items, f)));
      } else {
        assert es[..|fields|] == es;
        assert forall e :: e in es ==> e.0 != name;
        AssignAllAbsent(es, |fields|, name);
      }
    }
  }

  // ---------------------------------------------------------------------------
  // Numbers as `toLocaleString` writes them (en-US grouping)
  // ---------------------------------------------------------------------------

  function Digit(d: nat): char
    requires d < 10
  {
    "0123456789"[d]
  }

  /** The decimal digits of `n`. */
  function Decimal(n: nat): (s: string)
    ensures s != [] && forall i :: 0 <= i < |s| ==> s[i] != ','
  {
    if n < 10 then [Digit(n)] else Decimal(n / 10) + [Digit(n % 10)]
  }

  /** The three digits of `r`, with leading zeros. */
  function Pad3(r: nat): (s: string)
    requires r < 1000
    ensures |s| == 3 && forall i :: 0 <= i < 3 ==> s[i] != ','
  {
    [Digit(r / 100), Digit(r / 10 % 10), Digit(r % 10)]
  }

  /** `n.toLocaleString()`: the digits in groups of three separated by commas. */
  function Grouped(n: nat): (s: string)
    ensures s != [] && s[0] != ','
  {
    if n < 1000 then Decimal(n) else Grouped(n / 1000) + "," + Pad3(n % 1000)
  }

  function WithoutCommas(s: string): (r: string)
    ensures |r| <= |s|
  {
    if s == [] then [] else (if s[0] == ',' then [] else [s[0]]) + WithoutCommas(s[1..])
  }

  lemma {:induction false} WithoutCommasAppend(a: string, b: string)
    ensures WithoutCommas(a + b) == WithoutCommas(a) + WithoutCommas(b)
    decreases |a|
  {
    if a != [] {
      assert (a + b)[1..] == a[1..] + b;
      WithoutCommasAppend(a[1..], b);
    } else {
      assert a + b == b;
    }
  }

  lemma {:induction false} NoCommas(s: string)
    requires forall i :: 0 <= i < |s| ==> s[i] != ','
    ensures WithoutCommas(s) == s
    decreases |s|
  {
    if s != [] {
      NoCommas(s[1..]);
    }
  }

  /** Three more digits at the end of a number of at least one digit. */
  lemma DecimalThousands(q: nat, r: nat)
    requires q > 0 && r < 1000
    ensures Decimal(q * 1000 + r) == Decimal(q) + Pad3(r)
  {
    var n := q * 1000 + r;
    assert n / 10 == q * 100 + r / 10 && n % 10 == r % 10;
    var n1 := q * 100 + r / 10;
    assert n1 / 10 == q * 10 + r / 100 && n1 % 10 == r / 10 % 10;
    var n2 := q * 10 + r / 100;
    assert n2 / 10 == q && n2 % 10 == r / 100;
    assert Decimal(n) == Decimal(n1) + [Digit(r % 10)];
    assert Decimal(n1) == Decimal(n2) + [Digit(r / 10 % 10)];
    assert Decimal(n2) == Decimal(q) + [Digit(r / 100)];
  }

  /** The grouped form is the decimal form with commas inserted. */
  lemma {:induction false} GroupedDigits(n: nat)
    ensures WithoutCommas(Grouped(n)) == Decimal(n)
  {
    if n < 1000 {
      NoCommas(Decimal(n));
    } else {
      var q, r := n / 1000, n % 1000;
      GroupedDigits(q);
      GroupedStep(Grouped(q), Pad3(r));
      DecimalThousands(q, r);
      assert n == q * 1000 + r;
    }
  }

  lemma GroupedStep(g: string, p: string)
    requires forall i :: 0 <= i < |p| ==> p[i] != ','
    ensures WithoutCommas(g + "," + p) == WithoutCommas(g) + p
  {
    var gc := g + ",";
    WithoutCommasAppend(gc, p);
    WithoutCommasAppend(g, ",");
    assert WithoutCommas(",") == [] by {
      assert ","[1..] == [];
    }
    assert WithoutCommas(gc) == WithoutCommas(g);
    NoCommas(p);
    assert g + "," + p == gc + p;
  }

  /** `(6001).toLocaleString()` is "6,001". */
  lemma GroupedExample()
    ensures Grouped(6001) == "6,001"
  {
    assert Decimal(6) == "6";
    assert Pad3(1) == "001";
  }

  // ---------------------------------------------------------------------------
  // Errors
  // ---------------------------------------------------------------------------

  /** `errorMap`: the type and message of each known driver code. */
  function KnownError(code: string, message: string): Option<(string, string)> {
    match code
    case "ER_NO_SUCH_TABLE" => Some(("TABLE_NOT_FOUND", "테이블을 찾을 수 없습니다: " + message))
    case "ER_BAD_FIELD_ERROR" => Some(("COLUMN_NOT_FOUND", "컬럼을 찾을 수 없습니다: " + message))
    case "ER_PARSE_ERROR" => Some(("SYNTAX_ERROR", "SQL 문법 오류: " + message))
    case "ECONNREFUSED" => Some(("CONNECTION_ERROR", "데이터베이스 연결에 실패했습니다"))
    case "ER_ACCESS_DENIED_ERROR" => Some(("ACCESS_DENIED", "데이터베이스 접근 권한이 없습니다"))
    case "PROTOCOL_CONNECTION_LOST" => Some(("CONNECTION_LOST", "데이터베이스 연결이 끊어졌습니다"))
    case _ => None
  }

  const KnownCodes := ["ER_NO_SUCH_TABLE", "ER_BAD_FIELD_ERROR", "ER_PARSE_ERROR", "ECONNREFUSED", "ER_ACCESS_DENIED_ERROR", "PROTOCOL_CONNECTION_LOST"]
  const KnownTypes := ["TABLE_NOT_FOUND", "COLUMN_NOT_FOUND", "SYNTAX_ERROR", "CONNECTION_ERROR", "ACCESS_DENIED", "CONNECTION_LOST"]

  /** `errorMap[error.code] ?? {type: error.code ?? 'UNKNOWN_ERROR', msg: error.message}`. */
  function Classify(e: DriverError): (string, string) {
    var known := if e.code.Some? then KnownError(e.code.value, e.message) else None;
    if known.Some? then known.value else (e.code.GetOr("UNKNOWN_ERROR"), e.message)
  }

  /**
    The known codes are exactly the six of the table, each with its own type;
    any other code is its own type, and no code gives "UNKNOWN_ERROR", with
    the driver's message.
  */
  lemma ClassifyCodes(e: DriverError)
    ensures e.code.Some? ==> (KnownError(e.code.value, e.message).Some? <==> e.code.value in KnownCodes)
    ensures forall k :: 0 <= k < |KnownCodes| && e.code == Some(KnownCodes[k]) ==> Classify(e).0 == KnownTypes[k]
    ensures e.code.Some? && e.code.value !in KnownCodes ==> Classify(e) == (e.code.value, e.message)
    ensures e.code.None? ==> Classify(e) == ("UNKNOWN_ERROR", e.message)
  {
  }

  /** Different known codes get different types. */
  lemma KnownTypesDistinct()
    ensures forall a, b :: 0 <= a < b < |KnownTypes| ==> KnownTypes[a] != KnownTypes[b]
    ensures |KnownTypes| == |KnownCodes|
  {
  }

  // ---------------------------------------------------------------------------
  // The tool
  // ---------------------------------------------------------------------------

  datatype Outcome =
    | Rows(columns: Fields, data: Json)                       // success: the columns and the rows as given
    | TooLarge(message: string)                               // success, with only a message under `columns`
    | Failed(kind: string, message: string, originalMessage: string,
             code: Option<string>, errno: Option<int>, sqlState: Option<string>, query: Json)

  /** The error record; `query` is the cleaned query when there is one, else `$SQL_QUERY`. */
  function ErrorRecord(e: DriverError, query: Json): Outcome {
    var (kind, message) := Classify(e);
    Failed(kind, message, e.message, e.code, e.errno, e.sqlState, query)
  }

  function TooLargeMessage(size: nat): string {
    "쿼리는 정상적으로 실행되었지만, 결과가 약 " + Grouped(size)
    + "자에 달하여 3,000자를 초과하였습니다.\n\n너무 많은 실행 결과를 불러일으키지 않도록 쿼리 조건을 제한하여 다시 시도해주세요."
  }

  /** What the tool returns for a successful query: the columns, or the message when their JSON text is too long. */
  function Deliver(x: Execution, codec: Codec): Outcome {
    var columns := ColumnsOf(x.rows, x.fields);
    var size := Text.Utf16Length(codec.stringify(JObj(columns)));
    if size > MaxLength then TooLarge(TooLargeMessage(size)) else Rows(columns, x.rows)
  }

  /** The tool's result, as a function of its inputs. */
  function ExecuteSpec(q: Json, config: DbConfig, driver: Driver, codec: Codec): Outcome {
    match CleanQuery(q, QueryRequired, QueryEmpty)
    case Failure(m) => ErrorRecord(PlainError(m), q)
    case Success(clean) =>
      if !ConfigComplete(config) then ErrorRecord(PlainError(ConfigMissing), JStr(clean))
      else if driver.connect.Some? then ErrorRecord(driver.connect.value, JStr(clean))
      else
        match driver.execute(clean)
        case Failure(e) => ErrorRecord(e, JStr(clean))
        case Success(x) => Deliver(x, codec)
  }

  method ExecuteQuery(q: Json, config: DbConfig, driver: Driver, codec: Codec) returns (r: Outcome)
    ensures r == ExecuteSpec(q, config, driver, codec)
  {
    var cleanQuery := "";
    var error: DriverError;
    if !q.JStr? || q.s == "" {
      error := PlainError(QueryRequired);
    } else {
      cleanQuery := Text.Trim(q.s);
      if cleanQuery == "" {
        error := PlainError(QueryEmpty);
      } else if !ConfigComplete(config) {
        error := PlainError(ConfigMissing);
      } else if driver.connect.Some? {
        error := driver.connect.value;
      } else {
        var answer := driver.execute(cleanQuery);
        if answer.Failure? {
          error := answer.error;
        } else {
          var columns := ColumnOriented(answer.value.rows, answer.value.fields);
          var columnJson := codec.stringify(JObj(columns));
          var size := Text.Utf16Length(columnJson);
          if size > MaxLength {
            return TooLarge(TooLargeMessage(size));
          }
          return Rows(columns, answer.value.rows);
        }
      }
    }
    r := ErrorRecord(error, if cleanQuery != "" then JStr(cleanQuery) else q);
  }

  // ---------------------------------------------------------------------------
  // Properties of the tool
  // ---------------------------------------------------------------------------

  /**
    An invalid query or missing settings are reported without the database
    being asked anything: the result does not depend on the driver.
  */
  lemma RejectedBeforeConnecting(q: Json, config: DbConfig, d1: Driver, d2: Driver, codec: Codec)
    requires CleanQuery(q, QueryRequired, QueryEmpty).Failure? || !ConfigComplete(config)
    ensures ExecuteSpec(q, config, d1, codec) == ExecuteSpec(q, config, d2, codec)
    ensures ExecuteSpec(q, config, d1, codec).Failed?
    ensures ExecuteSpec(q, config, d1, codec).kind == "UNKNOWN_ERROR"
  {
  }

  /**
    A failure always carries the driver's own message, and names the trimmed
    query when there is one and `$SQL_QUERY` itself otherwise.
  */
  lemma FailureQuery(q: Json, config: DbConfig, driver: Driver, codec: Codec)
    requires ExecuteSpec(q, config, driver, codec).Failed?
    ensures var r := ExecuteSpec(q, config, driver, codec);
      r.query == (if q.JStr? && Text.Trim(q.s) != "" then JStr(Text.Trim(q.s)) else q)
    ensures var r := ExecuteSpec(q, config, driver, codec);
      CleanQuery(q, QueryRequired, QueryEmpty).Failure? ==>
        r.originalMessage == CleanQuery(q, QueryRequired, QueryEmpty).error && r.code.None?
    ensures var r := ExecuteSpec(q, config, driver, codec);
      CleanQuery(q, QueryRequired, QueryEmpty).Success? && !ConfigComplete(config) ==>
        r.originalMessage == ConfigMissing && r.code.None?
    ensures var r := ExecuteSpec(q, config, driver, codec);
      CleanQuery(q, QueryRequired, QueryEmpty).Success? && ConfigComplete(config) && driver.connect.Some? ==>
        var e := driver.connect.value;
        r.originalMessage == e.message && r.code == e.code && r.errno == e.errno && r.sqlState == e.sqlState
    ensures var r := ExecuteSpec(q, config, driver, codec);
      CleanQuery(q, QueryRequired, QueryEmpty).Success? && ConfigComplete(config) && driver.connect.None? ==>
        var e := driver.execute(CleanQuery(q, QueryRequired, QueryEmpty).value).error;
        r.originalMessage == e.message && r.code == e.code && r.errno == e.errno && r.sqlState == e.sqlState
  {
  }

  /**
    Returned rows come with the columns built from them, and only when the
    columns' JSON text is at most 6000 UTF-16 code units long; a longer text gives
    only the message, which quotes its length.
  */
  lemma SizeCap(x: Execution, codec: Codec)
    ensures var r := Deliver(x, codec);
      r.Rows? || r.TooLarge?
    ensures var r := Deliver(x, codec);
      r.Rows? ==> Text.Utf16Length(codec.stringify(JObj(r.columns))) <= MaxLength && r.columns == ColumnsOf(x.rows, x.fields) && r.data == x.rows
    ensures var r := Deliver(x, codec);
      r.TooLarge? <==> Text.Utf16Length(codec.stringify(JObj(ColumnsOf(x.rows, x.fields)))) > MaxLength
    ensures var r := Deliver(x, codec);
      r.TooLarge? ==> r.message == TooLargeMessage(Text.Utf16Length(codec.stringify(JObj(ColumnsOf(x.rows, x.fields)))))
  {
  }

  /** A query that passes the checks and runs is answered from its rows; otherwise the tool fails. */
  lemma SuccessFromRows(q: Json, config: DbConfig, driver: Driver, codec: Codec)
    ensures var r := ExecuteSpec(q, config, driver, codec);
      !r.Failed? <==>
        q.JStr? && Text.Trim(q.s) != "" && ConfigComplete(config) && driver.connect.None? && driver.execute(Text.Trim(q.s)).Success?
    ensures var r := ExecuteSpec(q, config, driver, codec);
      !r.Failed? ==> r == Deliver(driver.execute(Text.Trim(q.s)).value, codec)
  {
    if q.JStr? && driver.execute(Text.Trim(q.s)).Success? {
      SizeCap(driver.execute(Text.Trim(q.s)).value, codec);
    }
  }
}
