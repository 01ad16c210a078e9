/**
  The schema tool for uploaded tables: find the requested table names, then
  for each table list its columns in ordinal order with their type, key flag
  and, when a column has few distinct values, those values. Without an
  upload it returns a fixed description of four insurance tables.
  The database is given as values: the outcome of connecting and of each
  query.
*/
module DbSchema {
  import opened Wrappers
  import Text
  import opened Json

  /** One row of the `INFORMATION_SCHEMA.COLUMNS` query. */
  datatype ColumnRow = ColumnRow(name: string, dataType: string, key: string)

  /**
    The database as far as the tool sees it: the connection error, if any;
    the columns of a table in ordinal order, or the query's error; the
    distinct-value count of a column and its distinct non-null values (at
    most 25), `None` when that query fails.
  */
  datatype Db = Db(
    connect: Option<string>,
    columns: Json -> Result<seq<ColumnRow>, string>,
    distinctCount: (Json, string) -> Option<int>,
    distinctValues: (Json, string) -> Option<seq<Json>>)

  /** The database all uploaded tables live in. */
  const Database := "uploaded"
  const MaxSampled := 25
  const NotAnArray := "rdb_table must be a non-empty array."

  // ---------------------------------------------------------------------------
  // Table names
  // ---------------------------------------------------------------------------

  /**
    The requested table names (`None` is `undefined`), or `Failure` when the
    fallback text cannot be parsed and the tool throws. The upload result's
    "OK" field comes first; when that text does not parse (or parses to
    `null`), `$rdb_table` is used, parsed after turning `'` into `"` when it
    is a string.
  */
  function TableNames(uploadRes: string, rdbTable: Option<Json>, codec: Codec): Result<Option<Json>, ()> {
    match codec.parse(uploadRes)
    case Some(JObj(fs)) => Success(Get(fs, "OK"))
    case Some(JNull) => Fallback(rdbTable, codec)
    case Some(_) => Success(None)
    case None => Fallback(rdbTable, codec)
  }

  function Fallback(rdbTable: Option<Json>, codec: Codec): Result<Option<Json>, ()> {
    if rdbTable.Some? && rdbTable.value.JStr? then
      match codec.parse(Text.SingleToDouble(rdbTable.value.s))
      case Some(v) => Success(Some(v))
      case None => Failure(())
    else Success(rdbTable)
  }

  /** The fallback is used only when the upload result is not JSON text or is `null`. */
  lemma TableNamesSource(uploadRes: string, rdbTable: Option<Json>, codec: Codec)
    ensures codec.parse(uploadRes).Some? && codec.parse(uploadRes).value.JObj? ==>
      TableNames(uploadRes, rdbTable, codec) == Success(Get(codec.parse(uploadRes).value.fields, "OK"))
    ensures (codec.parse(uploadRes).None? || codec.parse(uploadRes) == Some(JNull)) && !(rdbTable.Some? && rdbTable.value.JStr?) ==>
      TableNames(uploadRes, rdbTable, codec) == Success(rdbTable)
    ensures (codec.parse(uploadRes).None? || codec.parse(uploadRes) == Some(JNull)) && rdbTable.Some? && rdbTable.value.JStr? ==>
      TableNames(uploadRes, rdbTable, codec) ==
        (var p := codec.parse(Text.SingleToDouble(rdbTable.value.s)); if p.Some? then Success(p) else Failure(()))
  {
  }

  // ---------------------------------------------------------------------------
  // Column information
  // ---------------------------------------------------------------------------

  /**
    `colInfo`: name and type; `primary: true` for a primary key column, or
    else `unique: true` for a unique one; `unique_values` when the distinct
    count is between 1 and 25 and the sample query succeeded.
  */
  function ColInfo(col: ColumnRow, count: Option<int>, values: Option<seq<Json>>): Json {
    var base := [("name", JStr(col.name)), ("type", JStr(col.dataType))];
    var keyed :=
      if col.key == "PRI" then base + [("primary", JBool(true))]
      else if col.key == "UNI" then base + [("unique", JBool(true))]
      else base;
    if count.Some? && 0 < count.value <= MaxSampled && values.Some? then JObj(keyed + [("unique_values", JArr(values.value))])
    else JObj(keyed)
  }

  function ColInfoFor(table: Json, col: ColumnRow, db: Db): Json {
    ColInfo(col, db.distinctCount(table, col.name), db.distinctValues(table, col.name))
  }

  /** The name and type are always there. */
  lemma ColInfoNameType(col: ColumnRow, count: Option<int>, values: Option<seq<Json>>)
    ensures var info := ColInfo(col, count, values).fields;
      Get(info, "name") == Some(JStr(col.name)) && Get(info, "type") == Some(JStr(col.dataType))
  {
    var info := ColInfo(col, count, values).fields;
    GetSmallIs(info, "name");
    GetSmallIs(info, "type");
  }

  /** A primary key column is marked primary, a unique one unique, and no column both. */
  lemma ColInfoKeyFlags(col: ColumnRow, count: Option<int>, values: Option<seq<Json>>)
    ensures var info := ColInfo(col, count, values).fields;
      (Get(info, "primary") == Some(JBool(true)) <==> col.key == "PRI") &&
      (Get(info, "unique") == Some(JBool(true)) <==> col.key == "UNI") &&
      !(Get(info, "primary").Some? && Get(info, "unique").Some?)
  {
    if col.key == "PRI" {
      assert col.key != "UNI";
      KeyFlagsPrimary(col, count, values);
    } else if col.key == "UNI" {
      KeyFlagsUnique(col, count, values);
    } else {
      KeyFlagsNone(col, count, values);
    }
  }

  lemma KeyFlagsPrimary(col: ColumnRow, count: Option<int>, values: Option<seq<Json>>)
    requires col.key == "PRI"
    ensures var info := ColInfo(col, count, values).fields;
      Get(info, "primary") == Some(JBool(true)) && Get(info, "unique") == None
  {
    var info := ColInfo(col, count, values).fields;
    GetSmallIs(info, "primary");
    GetSmallIs(info, "unique");
  }

  lemma KeyFlagsUnique(col: ColumnRow, count: Option<int>, values: Option<seq<Json>>)
    requires col.key == "UNI"
    ensures var info := ColInfo(col, count, values).fields;
      Get(info, "primary") == None && Get(info, "unique") == Some(JBool(true))
  {
    var info := ColInfo(col, count, values).fields;
    GetSmallIs(info, "primary");
    GetSmallIs(info, "unique");
  }

  lemma KeyFlagsNone(col: ColumnRow, count: Option<int>, values: Option<seq<Json>>)
    requires col.key != "PRI" && col.key != "UNI"
    ensures var info := ColInfo(col, count, values).fields;
      Get(info, "primary") == None && Get(info, "unique") == None
  {
    var info := ColInfo(col, count, values).fields;
    GetSmallIs(info, "primary");
    GetSmallIs(info, "unique");
  }

  /**
    Sample values are attached exactly when the count is in 1..25 and the
    sample query succeeded, and then they are the values it returned.
  */
  lemma ColInfoSamples(col: ColumnRow, count: Option<int>, values: Option<seq<Json>>)
    ensures var info := ColInfo(col, count, values).fields;
      (Get(info, "unique_values").Some? <==> count.Some? && 0 < count.value <= MaxSampled && values.Some?) &&
      (Get(info, "unique_values").Some? ==> Get(info, "unique_values") == Some(JArr(values.value)))
  {
    var info := ColInfo(col, count, values).fields;
    GetSmallIs(info, "unique_values");
  }

  /** `Get` on an object of two to four keys, spelled out. */
  function GetSmall(info: Fields, k: string): Option<Json>
    requires 2 <= |info| <= 4
  {
    if info[0].0 == k then Some(info[0].1)
    else if info[1].0 == k then Some(info[1].1)
    else if |info| > 2 && info[2].0 == k then Some(info[2].1)
    else if |info| > 3 && info[3].0 == k then Some(info[3].1)
    else None
  }

  lemma GetSmallIs(info: Fields, k: string)
    requires 2 <= |info| <= 4
    ensures Get(info, k) == GetSmall(info, k)
  {
    var t2 := info[1..][1..];
    if |t2| > 0 {
      var t3 := t2[1..];
      if |t3| > 0 {
        assert t3[1..] == [];
      }
    }
  }

  // ---------------------------------------------------------------------------
  // The table loop
  // ---------------------------------------------------------------------------

  /** `minimalColumns` of a table: one `colInfo` per column row, in order. */
  function ColumnInfos(table: Json, cols: seq<ColumnRow>, db: Db): (infos: seq<Json>)
    ensures |infos| == |cols| && forall i :: 0 <= i < |cols| ==> infos[i] == ColInfoFor(table, cols[i], db)
  {
    seq(|cols|, i requires 0 <= i < |cols| => ColInfoFor(table, cols[i], db))
  }

  /** The inner loop: build each `colInfo`, setting its fields as the checks and queries allow. */
  method CollectColumns(table: Json, cols: seq<ColumnRow>, db: Db) returns (minimalColumns: seq<Json>)
    ensures minimalColumns == ColumnInfos(table, cols, db)
  {
    minimalColumns := [];
    for i := 0 to |cols|
      invariant minimalColumns == ColumnInfos(table, cols[..i], db)
    {
      var col := cols[i];
      var colInfo := [("name", JStr(col.name)), ("type", JStr(col.dataType))];
      if col.key == "PRI" {
        colInfo := colInfo + [("primary", JBool(true))];
      } else if col.key == "UNI" {
        colInfo := colInfo + [("unique", JBool(true))];
      }
      var cnt := db.distinctCount(table, col.name);
      if cnt.Some? && cnt.value > 0 && cnt.value <= MaxSampled {
        var values := db.distinctValues(table, col.name);
        if values.Some? {
          colInfo := colInfo + [("unique_values", JArr(values.value))];
        }
      }
      assert cols[..i + 1] == cols[..i] + [col];
      minimalColumns := minimalColumns + [JObj(colInfo)];
    }
    assert cols[..|cols|] == cols;
  }

  /** One entry of `schemaList`. */
  function TableEntry(table: Json, columns: seq<Json>): Json {
    JObj([("table_name", table), ("columns", JArr(columns))])
  }

  /** `schemaList` after the first `n` tables, or the error of the first column query that fails. */
  function SchemaUpTo(tables: seq<Json>, n: nat, db: Db): Result<seq<Json>, string>
    requires n <= |tables|
  {
    if n == 0 then Success([])
    else
      match SchemaUpTo(tables, n - 1, db)
      case Failure(m) => Failure(m)
      case Success(prev) =>
        match db.columns(tables[n - 1])
        case Failure(m) => Failure(m)
        case Success(cols) => Success(prev + [TableEntry(tables[n - 1], ColumnInfos(tables[n - 1], cols, db))])
  }

  /**
    When every column query succeeds there is one entry per requested table,
    in request order, each with that table's columns in ordinal order.
  */
  lemma {:induction false} SchemaUpToShape(tables: seq<Json>, n: nat, db: Db)
    requires n <= |tables|
    requires SchemaUpTo(tables, n, db).Success?
    ensures |SchemaUpTo(tables, n, db).value| == n
    ensures forall i :: 0 <= i < n ==>
      (db.columns(tables[i]).Success? &&
       SchemaUpTo(tables, n, db).value[i] == TableEntry(tables[i], ColumnInfos(tables[i], db.columns(tables[i]).value, db)))
  {
    if n > 0 {
      SchemaUpToShape(tables, n - 1, db);
    }
  }

  /** A failure is the first table whose column query fails. */
  lemma {:induction false} SchemaUpToFailure(tables: seq<Json>, n: nat, db: Db)
    requires n <= |tables|
    requires SchemaUpTo(tables, n, db).Failure?
    ensures exists j ::
      (0 <= j < n && db.columns(tables[j]) == Failure(SchemaUpTo(tables, n, db).error) &&
       forall i :: 0 <= i < j ==> db.columns(tables[i]).Success?)
  {
    if SchemaUpTo(tables, n - 1, db).Failure? {
      SchemaUpToFailure(tables, n - 1, db);
    } else {
      SchemaUpToSucceeds(tables, n - 1, db);
    }
  }

  lemma {:induction false} SchemaUpToSucceeds(tables: seq<Json>, n: nat, db: Db)
    requires n <= |tables|
    requires SchemaUpTo(tables, n, db).Success?
    ensures forall i :: 0 <= i < n ==> db.columns(tables[i]).Success?
  {
    SchemaUpToShape(tables, n, db);
  }

  /** The outer loop over the requested tables. */
  method CollectTables(tables: seq<Json>, db: Db) returns (r: Result<seq<Json>, string>)
    ensures r == SchemaUpTo(tables, |tables|, db)
  {
    var schemaList: seq<Json> := [];
    for i := 0 to |tables|
      invariant SchemaUpTo(tables, i, db) == Success(schemaList)
    {
      var tableName := tables[i];
      var columnsData := db.columns(tableName);
      if columnsData.Failure? {
        SchemaUpToStops(tables, i + 1, |tables|, db);
        return Failure(columnsData.error);
      }
      var minimalColumns := CollectColumns(tableName, columnsData.value, db);
      schemaList := schemaList + [TableEntry(tableName, minimalColumns)];
    }
    return Success(schemaList);
  }

  lemma {:induction false} SchemaUpToStops(tables: seq<Json>, m: nat, n: nat, db: Db)
    requires m <= n <= |tables|
    requires SchemaUpTo(tables, m, db).Failure?
    ensures SchemaUpTo(tables, n, db) == SchemaUpTo(tables, m, db)
    decreases n - m
  {
    if m < n {
      SchemaUpToStops(tables, m, n - 1, db);
    }
  }

  // ---------------------------------------------------------------------------
  // The fixed schema of the insurance tables
  // ---------------------------------------------------------------------------

  /** A documented column: type, primary-key flag, comment, example values and an optional description. */
  datatype ColumnDoc = ColumnDoc(name: string, sqlType: string, primary: bool, comment: string, examples: seq<Json>, note: Option<string>)

  datatype TableDoc = TableDoc(name: string, description: string, columns: seq<ColumnDoc>)

  function N(i: int): Json {
    JNum(i as real)
  }

  const NCONT001: seq<ColumnDoc> := [
    ColumnDoc("FIN_YM", "int", true, "마감년월", [N(202508), N(202506), N(202504), N(202503), N(202502)], None),
    ColumnDoc("STND_CD", "varchar", true, "입금업적기준코드", [JStr("A"), JStr("C"), JStr("B")], None),
    ColumnDoc("CNSLT_SC_CD", "varchar", true, "공동모집컨설턴트구분코드", [JStr("F"), JStr("G")], None),
    ColumnDoc("STND_YM", "int", false, "입금업적기준년월", [N(202505), N(202502), N(202506), N(202501), N(202507)], None),
    ColumnDoc("CONT_NO", "int", false, "계약번호", [N(76425365), N(44281767), N(76918188), N(89182566), N(38939423)], None),
    ColumnDoc("OFR_STAT_CD", "int", false, "청약상태코드", [N(1), N(0)], None),
    ColumnDoc("CONT_STAT_CD", "int", false, "계약상태코드", [N(1), N(0)], None),
    ColumnDoc("CLCT_CNSLT_NO", "int", true, "모집컨설턴트번호", [N(93660284), N(90643350), N(41630033), N(59358685), N(88817274)], None),
    ColumnDoc("EXTC_YMD", "int", false, "소멸일자", [N(20330520), N(20300227), N(20340513), N(20341211), N(20330102)], None),
    ColumnDoc("PRCD", "varchar", false, "상품코드", [JStr("VHBKEH615"), JStr("SVJWZGIWI"), JStr("RC8JULF09"), JStr("S9NFVTI8M"), JStr("JJF4XDK4Y")], None),
    ColumnDoc("SALE_PRCD", "varchar", false, "판매상품코드", [JStr("KV38YJXBO"), JStr("WL22LJXYY"), JStr("5CYNRF29M"), JStr("V8STKIQKV"), JStr("U503OVMR9")], None),
    ColumnDoc("LST_UNDW_YMD", "int", false, "최종계약심사일자", [N(202502), N(202505), N(202503), N(202501), N(202509)], None),
    ColumnDoc("PRDT_MCLSF_CD", "int", false, "상품중분류", [N(3), N(1), N(2)], None),
    ColumnDoc("PRDT_LCLSF_CD", "int", false, "상품대분류", [N(2), N(1), N(3)], None),
    ColumnDoc("PRDT_SCLSF_CD", "int", false, "상품소분류", [N(1), N(2), N(4), N(5), N(3)], None),
    ColumnDoc("PRDT_NM", "varchar", false, "상품명", [JStr("스마트통합안심"), JStr("간편심사통합안심"), JStr("평생종신에이스"), JStr("스마트실손라이트"), JStr("유배당종신안심")], None),
    ColumnDoc("SMTOT_PRM", "int", false, "월납환산합계보험료", [N(284285), N(82102), N(266962), N(270157), N(177168)], None),
    ColumnDoc("MPDB_PRM", "int", false, "월납월초보험료", [N(120535), N(101307), N(24824), N(77972), N(385626)], None),
    ColumnDoc("FRTM_PRM", "int", false, "비월납초회보험료", [N(110557), N(144219), N(96961), N(68878), N(318778)], None)
  ]

  const CRO001: seq<ColumnDoc> := [
    ColumnDoc("CNSLT_NO", "int", true, "모집컨설턴트번호", [N(60227680), N(40250165), N(25808631), N(93008687), N(59358685)], None),
    ColumnDoc("ORG_NO", "int", false, "조직번호", [N(91), N(6), N(76), N(51), N(83)], None),
    ColumnDoc("CLCT_HOF_ORG_NO", "int", false, "모집사업부조직번호", [N(2), N(5), N(10), N(9), N(7)], None),
    ColumnDoc("CLCT_JOF_ORG_NO", "int", false, "모집지역단조직번호", [N(3), N(5), N(6), N(2), N(7)], None),
    ColumnDoc("CLCT_FOF_ORG_NO", "int", false, "모집지점조직번호", [N(7), N(5), N(4), N(3), N(2)], None),
    ColumnDoc("SALES_PESN_CD", "varchar", false, "영업인사채널구분코드", [JStr("B"), JStr("A"), JStr("D"), JStr("C")], None)
  ]

  const OBJ001: seq<ColumnDoc> := [
    ColumnDoc("ORG", "int", false, "조직번호", [N(1), N(2), N(3), N(4), N(5)], None),
    ColumnDoc("NF_FIN_YM", "int", true, "마감년월", [N(202501), N(202502), N(202503), N(202504), N(202505)], None),
    ColumnDoc("STND_YM", "int", false, "기준년월", [N(202508), N(202507), N(202509), N(202501), N(202506)], None),
    ColumnDoc("GOAL_MPDB_PRM", "int", false, "목표월납월보험료", [N(144765659), N(92921172), N(29052717), N(111705112), N(94799986)], None),
    ColumnDoc("GOAL_PTCT_MPDB_PRM", "int", false, "목표보장성월납월초보험료", [N(45232183), N(23984686), N(10359072), N(27027182), N(20651966)], None),
    ColumnDoc("GOAL_WLIFE_MPDB_PRM", "int", false, "목표종신월납월초보험료", [N(38161144), N(39260420), N(3767846), N(24696087), N(13347300)], None),
    ColumnDoc("GOAL_M_LWPC_MPDB_PRM", "int", false, "목표중저가월납월초보험료", [N(14536222), N(5803540), N(7324848), N(11983537), N(29929462)], None),
    ColumnDoc("GOAL_FNC_MPDB_PRM", "int", false, "목표금융월납월초보험료", [N(46836110), N(23872526), N(7600951), N(47998306), N(30871258)], None),
    ColumnDoc("GOAL_RESU_PRM", "int", false, "목표성과보험료", [N(34348562), N(15113618), N(19440904), N(29720599), N(15786027)], None)
  ]

  const COV001: seq<ColumnDoc> := [
    ColumnDoc("COV_TT", "int", false, "고유한 담보 번호", [N(57898614), N(30784850), N(94650974), N(25846034), N(69586912)], None),
    ColumnDoc("STND_YMD", "int", false, "입금기준일자", [N(20250220), N(20250822), N(20250911), N(20250420), N(20250205)], None),
    ColumnDoc("CONT_CD", "int", false, "계약번호", [N(40206348), N(47810423), N(95460780), N(42587643), N(28670740)], None),
    ColumnDoc("COVNUM_VL", "int", false, "담보번호", [N(141), N(130), N(172), N(189), N(146)], None),
    ColumnDoc("COLTR_PCKG_ID", "int", false, "담보패키지코드", [N(350), N(310), N(323), N(354), N(303)], None),
    ColumnDoc("COLTR_LINE_CD", "int", false, "담보종목코드", [N(45), N(132), N(4), N(170), N(95)], None),
    ColumnDoc("COV_STATUS_CD", "int", false, "담보상태", [N(1), N(0)], None),
    ColumnDoc("COVBEG_DT", "int", false, "담보시작", [N(20250725), N(20250320), N(20250620), N(20250122), N(20250802)], None),
    ColumnDoc("COVEND_DT", "int", false, "담보종료", [N(20250825), N(20250720), N(20250415), N(20250417), N(20250313)], None),
    ColumnDoc("CONT_AMT", "int", false, "계약금액", [N(3845), N(7967), N(25444), N(6276), N(96256)], Some("특약 가격이라고 볼 수 있습니다.")),
    ColumnDoc("CROSS_AM", "int", false, "총보험료", [N(61183), N(43705), N(96232), N(1237), N(63118)], None),
    ColumnDoc("FIRST_PRFM_AMT", "int", false, "1차년도환산성적금액", [N(38798), N(83274), N(85622), N(43692), N(72970)], None)
  ]
  const StaticTables := [
    TableDoc("NCONT001", "신계약", NCONT001),
    TableDoc("CRO001", "인사", CRO001),
    TableDoc("OBJ001", "목표", OBJ001),
    TableDoc("COV001", "특약", COV001)
  ]

  /** A documented column as its JSON object: type, `primary` when set, comment, examples, `description` when given. */
  function ColumnDocJson(c: ColumnDoc): Json {
    JObj([("type", JStr(c.sqlType))] + (if c.primary then [("primary", JBool(true))] else [])
      + [("comment", JStr(c.comment)), ("examples", JArr(c.examples))]
      + (if c.note.Some? then [("description", JStr(c.note.value))] else []))
  }

  /** A documented table as its JSON object, its `column_info` keyed by column name. */
  function TableDocJson(t: TableDoc): Json {
    JObj([("table_name", JStr(t.name)), ("description", JStr(t.description)),
          ("column_info", JObj(seq(|t.columns|, i requires 0 <= i < |t.columns| => (t.columns[i].name, ColumnDocJson(t.columns[i])))))])
  }

  function StaticSchema(): (r: seq<Json>)
    ensures |r| == |StaticTables|
  {
    seq(|StaticTables|, i requires 0 <= i < |StaticTables| => TableDocJson(StaticTables[i]))
  }

  function ColumnNamesOf(t: TableDoc): seq<string> {
    seq(|t.columns|, i requires 0 <= i < |t.columns| => t.columns[i].name)
  }

  /**
    The four tables come in the order NCONT001, CRO001, OBJ001, COV001 with
    19, 6, 9 and 12 columns.
  */
  lemma StaticTablesShape()
    ensures |StaticTables| == 4
    ensures StaticTables[0].name == "NCONT001" && StaticTables[1].name == "CRO001"
    ensures StaticTables[2].name == "OBJ001" && StaticTables[3].name == "COV001"
    ensures |NCONT001| == 19 && |CRO001| == 6 && |OBJ001| == 9 && |COV001| == 12
  {
  }

  // ---------------------------------------------------------------------------
  // The tool
  // ---------------------------------------------------------------------------

  /**
    What the tool returns: the upload-based schemas; an error with the names
    that were requested (`None` when they are `undefined`); an uncaught
    throw when the fallback table text does not parse; or the fixed schema.
  */
  datatype SchemaResult =
    | Tables(schemas: seq<Json>)
    | SchemaError(message: string, tablesRequested: Option<Json>)
    | Aborted
    | Static(tables: seq<Json>)

  /** The object returned; `tables_requested` is dropped when it is `undefined`. */
  function ResultJson(r: SchemaResult): (j: Option<Json>)
    ensures j.None? <==> r.Aborted?
  {
    match r
    case Tables(schemas) => Some(JObj([("tables", JArr(schemas))]))
    case SchemaError(message, names) =>
      var debug := [("database", JStr(Database))] + (if names.Some? then [("tables_requested", names.value)] else []);
      Some(JObj([("error", JStr(message)), ("debug_info", JObj(debug))]))
    case Aborted => None
    case Static(tables) => Some(JArr(tables))
  }

  predicate NonEmptyArray(names: Option<Json>) {
    names.Some? && names.value.JArr? && |names.value.items| > 0
  }

  function SchemaSpec(fileCheck: Json, uploadRes: string, rdbTable: Option<Json>, codec: Codec, db: Db): SchemaResult {
    if fileCheck != JStr("YES") then Static(StaticSchema())
    else
      match TableNames(uploadRes, rdbTable, codec)
      case Failure(_) => Aborted
      case Success(names) =>
        if db.connect.Some? then SchemaError(db.connect.value, names)
        else if !NonEmptyArray(names) then SchemaError(NotAnArray, names)
        else
          match SchemaUpTo(names.value.items, |names.value.items|, db)
          case Failure(m) => SchemaError(m, names)
          case Success(list) => Tables(list)
  }

  method GetDbSchema(fileCheck: Json, uploadRes: string, rdbTable: Option<Json>, codec: Codec, db: Db) returns (r: SchemaResult)
    ensures r == SchemaSpec(fileCheck, uploadRes, rdbTable, codec, db)
  {
    if fileCheck != JStr("YES") {
      return Static(StaticSchema());
    }
    var names := TableNames(uploadRes, rdbTable, codec);
    if names.Failure? {
      return Aborted;
    }
    var tableNames := names.value;
    if db.connect.Some? {
      return SchemaError(db.connect.value, tableNames);
    }
    if !NonEmptyArray(tableNames) {
      return SchemaError(NotAnArray, tableNames);
    }
    var schemaList := CollectTables(tableNames.value.items, db);
    if schemaList.Failure? {
      return SchemaError(schemaList.error, tableNames);
    }
    return Tables(schemaList.value);
  }

  // ---------------------------------------------------------------------------
  // Properties of the tool
  // ---------------------------------------------------------------------------

  /** Without `file_check` set to "YES" the fixed schema is returned and the database is never used. */
  lemma StaticUnlessYes(fileCheck: Json, uploadRes: string, rdbTable: Option<Json>, codec: Codec, db: Db, db2: Db)
    ensures SchemaSpec(fileCheck, uploadRes, rdbTable, codec, db).Static? <==> fileCheck != JStr("YES")
    ensures fileCheck != JStr("YES") ==>
      SchemaSpec(fileCheck, uploadRes, rdbTable, codec, db) == SchemaSpec(fileCheck, uploadRes, rdbTable, codec, db2) &&
      |SchemaSpec(fileCheck, uploadRes, rdbTable, codec, db).tables| == 4
  {
  }

  /**
    Upload-based schemas are produced only for a non-empty array of table
    names, and then hold one entry per name, in order, each with that
    table's columns.
  */
  lemma {:induction false} TablesOutcome(fileCheck: Json, uploadRes: string, rdbTable: Option<Json>, codec: Codec, db: Db)
    requires SchemaSpec(fileCheck, uploadRes, rdbTable, codec, db).Tables?
    ensures fileCheck == JStr("YES") && db.connect.None?
    ensures var names := TableNames(uploadRes, rdbTable, codec);
      names.Success? && NonEmptyArray(names.value)
    ensures var tables := TableNames(uploadRes, rdbTable, codec).value.value.items;
      var schemas := SchemaSpec(fileCheck, uploadRes, rdbTable, codec, db).schemas;
      |schemas| == |tables| &&
      forall i :: 0 <= i < |tables| ==>
        (db.columns(tables[i]).Success? &&
         schemas[i] == TableEntry(tables[i], ColumnInfos(tables[i], db.columns(tables[i]).value, db)))
  {
    var tables := TableNames(uploadRes, rdbTable, codec).value.value.items;
    SchemaUpToShape(tables, |tables|, db);
  }

  /**
    Once the table names are known, a missing array, a non-array or an empty
    array is reported with the fixed message unless the connection failed
    first, and the requested names are echoed back.
  */
  lemma NonEmptyRequired(uploadRes: string, rdbTable: Option<Json>, codec: Codec, db: Db)
    requires TableNames(uploadRes, rdbTable, codec).Success?
    requires db.connect.None?
    ensures var names := TableNames(uploadRes, rdbTable, codec).value;
      !NonEmptyArray(names) ==> SchemaSpec(JStr("YES"), uploadRes, rdbTable, codec, db) == SchemaError(NotAnArray, names)
    ensures var names := TableNames(uploadRes, rdbTable, codec).value;
      NonEmptyArray(names) ==>
        (SchemaSpec(JStr("YES"), uploadRes, rdbTable, codec, db).Tables? ||
         SchemaSpec(JStr("YES"), uploadRes, rdbTable, codec, db) == SchemaError(SchemaUpTo(names.value.items, |names.value.items|, db).error, names))
  {
  }

  /** A failing column query reports that query's error for the first failing table. */
  lemma {:induction false} QueryFailureOutcome(uploadRes: string, rdbTable: Option<Json>, codec: Codec, db: Db)
    requires TableNames(uploadRes, rdbTable, codec).Success?
    requires db.connect.None? && NonEmptyArray(TableNames(uploadRes, rdbTable, codec).value)
    requires SchemaSpec(JStr("YES"), uploadRes, rdbTable, codec, db).SchemaError?
    ensures var tables := TableNames(uploadRes, rdbTable, codec).value.value.items;
      exists j :: 0 <= j < |tables| &&
        db.columns(tables[j]) == Failure(SchemaSpec(JStr("YES"), uploadRes, rdbTable, codec, db).message) &&
        forall i :: 0 <= i < j ==> db.columns(tables[i]).Success?
  {
    var tables := TableNames(uploadRes, rdbTable, codec).value.value.items;
    SchemaUpToFailure(tables, |tables|, db);
  }

  /** The tool throws only when it falls back to `$rdb_table`, a string whose quote-fixed text does not parse. */
  lemma AbortedOnlyOnBadFallback(fileCheck: Json, uploadRes: string, rdbTable: Option<Json>, codec: Codec, db: Db)
    ensures SchemaSpec(fileCheck, uploadRes, rdbTable, codec, db).Aborted? <==>
      fileCheck == JStr("YES") &&
      (codec.parse(uploadRes).None? || codec.parse(uploadRes) == Some(JNull)) &&
      rdbTable.Some? && rdbTable.value.JStr? && codec.parse(Text.SingleToDouble(rdbTable.value.s)).None?
  {
  }
}
