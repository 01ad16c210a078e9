/**
  The upload tool of KIC/bulk_insert_file.js: it cleans the uploaded text
  (document tags, trailing JSON objects after the first, quote styles),
  parses it, and for every sheet creates a table and inserts its rows,
  answering with the de-duplicated table names or an error record.
  The database is an oracle that answers each statement with an error
  message or with success; the statements sent are returned as a log.
*/
module BulkInsert {
  import opened Wrappers
  import Text
  import opened Json

  // ---------------------------------------------------------------------------
  // Document tags
  // ---------------------------------------------------------------------------

  /** The word characters of a regular expression's `\b`. */
  predicate IsWordChar(c: char) {
    ('a' <= c <= 'z') || ('A' <= c <= 'Z') || ('0' <= c <= '9') || c == '_'
  }

  /** Length of the opening `<doc` or `</doc` at the start of `s`, or 0. */
  function TagOpening(s: string): (n: nat)
    ensures n == 0 || n == 4 || n == 5
    ensures n > 0 ==> n <= |s| && s[0] == '<'
  {
    if |s| >= 4 && s[..4] == "<doc" then 4
    else if |s| >= 5 && s[..5] == "</doc" then 5
    else 0
  }

  /** Index of the first `c` in `s`, or -1. */
  function CharIndex(s: string, c: char): (r: int)
    ensures -1 <= r < |s|
    ensures r >= 0 ==> s[r] == c && c !in s[..r]
    ensures r == -1 <==> c !in s
  {
    if c in s then Text.FirstIndex(s, c) else -1
  }

  /**
    Length of the match of `<\/?doc\b[^>]*>` at the start of `s`, or 0: the
    opening, a word boundary after `doc`, and everything up to and
    including the first `>`.
  */
  function DocTagLength(s: string): (n: nat)
    ensures n <= |s|
    ensures n > 0 ==> n > TagOpening(s) > 0 && s[n - 1] == '>'
  {
    var p := TagOpening(s);
    if p == 0 || p == |s| || IsWordChar(s[p]) then 0
    else
      var q := CharIndex(s[p..], '>');
      if q < 0 then 0 else p + q + 1
  }

  /** `s.replace(/<\/?doc\b[^>]*>/g, '')`: the scan resumes after each removed tag. */
  function StripDocTags(s: string): (r: string)
    ensures |r| <= |s|
    decreases |s|
  {
    if s == [] then []
    else
      var n := DocTagLength(s);
      if n > 0 then StripDocTags(s[n..]) else [s[0]] + StripDocTags(s[1..])
  }

  /** A first character other than `<` is kept. */
  lemma StripPlainHead(s: string)
    requires s != [] && s[0] != '<'
    ensures StripDocTags(s) == [s[0]] + StripDocTags(s[1..])
  {
    assert DocTagLength(s) == 0;
  }

  /** Text without a `<` keeps every character. */
  lemma {:induction false} StripPlainPrefix(a: string, b: string)
    requires '<' !in a
    ensures StripDocTags(a + b) == a + StripDocTags(b)
    decreases |a|
  {
    if a != [] {
      var s := a + b;
      assert s[0] == a[0] && s[0] != '<';
      assert s[1..] == a[1..] + b;
      StripPlainHead(s);
      assert '<' !in a[1..] by {
        assert forall c :: c in a[1..] ==> c in a;
      }
      StripPlainPrefix(a[1..], b);
      ConsAppend(a, StripDocTags(b));
    } else {
      assert a + b == b;
      assert a + StripDocTags(b) == StripDocTags(b);
    }
  }

  lemma ConsAppend(a: string, t: string)
    requires a != []
    ensures [a[0]] + (a[1..] + t) == a + t
  {
    assert [a[0]] + a[1..] == a;
  }

  /** An opening tag with attributes is matched up to its `>`. */
  lemma {:induction false} OpeningTagLength(attrs: string, tail: string)
    requires attrs == [] || !IsWordChar(attrs[0])
    requires '>' !in attrs
    ensures DocTagLength("<doc" + attrs + ">" + tail) == 5 + |attrs|
  {
    var s := "<doc" + attrs + ">" + tail;
    assert s[..4] == "<doc";
    var rest := s[4..];
    assert rest == attrs + ">" + tail;
    assert rest[|attrs|] == '>';
    assert rest[..|attrs|] == attrs;
    assert CharIndex(rest, '>') == |attrs|;
  }

  /** A closing tag is removed. */
  lemma ClosingTagRemoved()
    ensures StripDocTags("</doc>") == []
  {
    var c := "</doc>";
    assert c[..4] != "<doc" by { assert c[1] != "<doc"[1]; }
    assert c[..5] == "</doc";
    assert c[5..] == ">";
    assert CharIndex(c[5..], '>') == 0;
    assert DocTagLength(c) == 6;
    assert c[6..] == [];
  }

  /**
    A payload wrapped in a document element, `<doc attrs>payload</doc>`,
    comes out as the bare payload, whatever attributes the opening tag has.
  */
  lemma StripWrapped(attrs: string, payload: string)
    requires attrs == [] || !IsWordChar(attrs[0])
    requires '>' !in attrs && '<' !in payload
    ensures StripDocTags("<doc" + attrs + ">" + payload + "</doc>") == payload
  {
    var open := "<doc" + attrs + ">";
    var tail := payload + "</doc>";
    var s := open + tail;
    assert s == "<doc" + attrs + ">" + payload + "</doc>";
    OpeningTagLength(attrs, tail);
    assert s == "<doc" + attrs + ">" + tail;
    assert |open| == 5 + |attrs|;
    assert s[|open|..] == tail;
    StripPlainPrefix(payload, "</doc>");
    ClosingTagRemoved();
    assert payload + [] == payload;
  }

  // ---------------------------------------------------------------------------
  // The first JSON object
  // ---------------------------------------------------------------------------

  /** A `}` at `i` followed, after white space only, by a `{` at `j`: a match of `/}\s*{/`. */
  predicate BoundaryAt(s: string, i: nat, j: nat) {
    i < j < |s| && s[i] == '}' && s[j] == '{' && forall k :: i < k < j ==> Text.IsJsSpace(s[k])
  }

  predicate HasObjectBoundary(s: string) {
    exists i: nat, j: nat | i < j < |s| :: BoundaryAt(s, i, j)
  }

  /** Opening minus closing braces in `t`: the running count of the extraction loop. */
  function Depth(t: string): int
    decreases |t|
  {
    if t == [] then 0
    else
      var c := t[|t| - 1];
      Depth(t[..|t| - 1]) + (if c == '{' then 1 else if c == '}' then -1 else 0)
  }

  /** The count returns to zero at the `}` at `i`. */
  predicate ClosesAt(s: string, i: int) {
    0 <= i < |s| && s[i] == '}' && Depth(s[..i + 1]) == 0
  }

  /** The first index below `n` where the count returns to zero, or -1. */
  function FirstCloseBelow(s: string, n: nat): (r: int)
    requires n <= |s|
    ensures r == -1 ==> forall i :: 0 <= i < n ==> !ClosesAt(s, i)
    ensures r != -1 ==> 0 <= r < n && ClosesAt(s, r) && forall i :: 0 <= i < r ==> !ClosesAt(s, i)
  {
    if n == 0 then -1
    else
      var r := FirstCloseBelow(s, n - 1);
      if r != -1 then r else if ClosesAt(s, n - 1) then n - 1 else -1
  }

  function FirstClose(s: string): (r: int)
    ensures r == -1 ==> forall i :: 0 <= i < |s| ==> !ClosesAt(s, i)
    ensures r != -1 ==> 0 <= r < |s| && ClosesAt(s, r) && forall i :: 0 <= i < r ==> !ClosesAt(s, i)
  {
    FirstCloseBelow(s, |s|)
  }

  /** The first index is unique: any index with the two properties is it. */
  lemma FirstCloseUnique(s: string, e: int)
    requires (e == -1 && forall i :: 0 <= i < |s| ==> !ClosesAt(s, i))
          || (0 <= e < |s| && ClosesAt(s, e) && forall i :: 0 <= i < e ==> !ClosesAt(s, i))
    ensures e == FirstClose(s)
  {
  }

  /** The brace-counting loop, stopping at the first `}` that brings the count back to zero. */
  method FirstJsonEnd(s: string) returns (firstJsonEnd: int)
    ensures firstJsonEnd == FirstClose(s)
  {
    var braceCount := 0;
    firstJsonEnd := -1;
    var i := 0;
    while i < |s|
      invariant 0 <= i <= |s|
      invariant braceCount == Depth(s[..i])
      invariant forall k :: 0 <= k < i ==> !ClosesAt(s, k)
    {
      assert s[..i + 1][..i] == s[..i];
      if s[i] == '{' {
        braceCount := braceCount + 1;
      }
      if s[i] == '}' {
        braceCount := braceCount - 1;
        if braceCount == 0 {
          firstJsonEnd := i;
          break;
        }
      }
      i := i + 1;
    }
    FirstCloseUnique(s, firstJsonEnd);
  }

  /** The text after extraction: cut after the first complete object when a second one follows. */
  function ExtractFirstObject(s: string): (r: string)
    ensures r <= s
  {
    if HasObjectBoundary(s) && FirstClose(s) > -1 then s[..FirstClose(s) + 1] else s
  }

  predicate NoBraces(t: string) {
    '{' !in t && '}' !in t
  }

  lemma {:induction false} DepthAppend(a: string, b: string)
    requires NoBraces(b)
    ensures Depth(a + b) == Depth(a)
    decreases |b|
  {
    if b != [] {
      var ab := a + b;
      assert ab[..|ab| - 1] == a + b[..|b| - 1];
      assert ab[|ab| - 1] == b[|b| - 1];
      DepthAppend(a, b[..|b| - 1]);
    } else {
      assert a + b == a;
    }
  }

  /**
    Two brace-free objects separated by white space: only the first is kept,
    `{x}  {y}` becomes `{x}`.
  */
  lemma ExtractFromPair(x: string, ws: string, y: string)
    requires NoBraces(x) && NoBraces(y)
    requires forall k :: 0 <= k < |ws| ==> Text.IsJsSpace(ws[k])
    ensures ExtractFirstObject("{" + x + "}" + ws + "{" + y + "}") == "{" + x + "}"
  {
    var first := "{" + x + "}";
    var s := first + ws + "{" + y + "}";
    var e := |x| + 1;
    assert s[e] == '}' && s[e + 1 + |ws|] == '{';
    assert forall k :: e < k < e + 1 + |ws| ==> s[k] == ws[k - e - 1];
    assert BoundaryAt(s, e, e + 1 + |ws|);
    assert s[..e + 1] == first;
    DepthAppend("{", x);
    assert first[..|first| - 1] == "{" + x;
    assert Depth("{") == 1 by { assert "{"[..0] == []; }
    assert ClosesAt(s, e);
    forall i | 0 <= i < e
      ensures !ClosesAt(s, i)
    {
      if i > 0 {
        assert s[i] == x[i - 1];
      }
    }
    FirstCloseUnique(s, e);
  }

  /** A text without a second object after the first is left as it is. */
  lemma ExtractWithoutBoundary(s: string)
    requires !HasObjectBoundary(s)
    ensures ExtractFirstObject(s) == s
  {
  }

  // ---------------------------------------------------------------------------
  // Quote normalisation
  // ---------------------------------------------------------------------------

  /** Every `'` of `t` as a backtick. */
  function Backticked(t: string): (r: string)
    ensures |r| == |t|
    ensures forall i :: 0 <= i < |t| ==> r[i] == if t[i] == '\'' then '`' else t[i]
  {
    seq(|t|, i requires 0 <= i < |t| => if t[i] == '\'' then '`' else t[i])
  }

  /**
    `s.replace(/"[^"]*'[^"]*"/g, m => m.replace(/'/g, '`'))`: a double-quoted
    run (from a `"` to the next `"`) that holds a `'` has its apostrophes
    turned into backticks, and the scan resumes after its closing quote;
    where there is no such run, the scan moves on by one character.
  */
  function BacktickQuoted(s: string): (r: string)
    ensures |r| == |s|
    decreases |s|
  {
    if s == [] then []
    else
      var close := CharIndex(s[1..], '"');
      if s[0] == '"' && close >= 0 && '\'' in s[1..][..close] then
        "\"" + Backticked(s[1..][..close]) + "\"" + BacktickQuoted(s[close + 2..])
      else
        [s[0]] + BacktickQuoted(s[1..])
  }

  /** Only apostrophes change, and only into backticks. */
  lemma {:induction false} BacktickOnlyApostrophes(s: string)
    ensures forall i :: 0 <= i < |s| ==> BacktickQuoted(s)[i] == s[i] || (s[i] == '\'' && BacktickQuoted(s)[i] == '`')
    decreases |s|
  {
    if s != [] {
      var close := CharIndex(s[1..], '"');
      if s[0] == '"' && close >= 0 && '\'' in s[1..][..close] {
        BacktickOnlyApostrophes(s[close + 2..]);
        BacktickRunStep(s, close);
        QuotedRunApostrophes(s, close, BacktickQuoted(s[close + 2..]), BacktickQuoted(s));
      } else {
        BacktickOnlyApostrophes(s[1..]);
        BacktickPlainStep(s);
        PlainHeadApostrophes(s, BacktickQuoted(s[1..]), BacktickQuoted(s));
      }
    }
  }

  /** `r` is `s` with some apostrophes turned into backticks and nothing else changed. */
  predicate ApostrophesOnly(s: string, r: string) {
    |r| == |s| && forall i :: 0 <= i < |s| ==> r[i] == s[i] || (s[i] == '\'' && r[i] == '`')
  }

  lemma BacktickRunStep(s: string, close: int)
    requires s != [] && close == CharIndex(s[1..], '"')
    requires s[0] == '"' && close >= 0 && '\'' in s[1..][..close]
    ensures BacktickQuoted(s) == "\"" + Backticked(s[1..][..close]) + "\"" + BacktickQuoted(s[close + 2..])
  {
  }

  lemma BacktickPlainStep(s: string)
    requires s != []
    requires var close := CharIndex(s[1..], '"');
      !(s[0] == '"' && close >= 0 && '\'' in s[1..][..close])
    ensures BacktickQuoted(s) == [s[0]] + BacktickQuoted(s[1..])
  {
  }

  lemma QuotedRunApostrophes(s: string, close: int, t: string, r: string)
    requires s != [] && 0 <= close && close + 1 < |s| && s[0] == '"' && s[close + 1] == '"'
    requires r == "\"" + Backticked(s[1..][..close]) + "\"" + t
    requires ApostrophesOnly(s[close + 2..], t)
    ensures ApostrophesOnly(s, r)
  {
    var inner := s[1..][..close];
    var rest := s[close + 2..];
    var b := Backticked(inner);
    forall i | 0 <= i < |s|
      ensures r[i] == s[i] || (s[i] == '\'' && r[i] == '`')
    {
      if i == 0 {
      } else if i <= close {
        assert r[i] == b[i - 1] && s[i] == inner[i - 1];
      } else if i == close + 1 {
      } else {
        assert r[i] == t[i - close - 2] && s[i] == rest[i - close - 2];
      }
    }
  }

  lemma PlainHeadApostrophes(s: string, t: string, r: string)
    requires s != [] && r == [s[0]] + t
    requires ApostrophesOnly(s[1..], t)
    ensures ApostrophesOnly(s, r)
  {
    forall i | 1 <= i < |s|
      ensures r[i] == s[i] || (s[i] == '\'' && r[i] == '`')
    {
      assert r[i] == t[i - 1] && s[i] == s[1..][i - 1];
    }
  }

  /** A quoted run holding an apostrophe, such as `"O'Brien"`, keeps its quotes and gets a backtick. */
  lemma BacktickRun(inner: string, rest: string)
    requires '"' !in inner && '\'' in inner
    ensures BacktickQuoted("\"" + inner + "\"" + rest) == "\"" + Backticked(inner) + "\"" + BacktickQuoted(rest)
  {
    var s := "\"" + inner + "\"" + rest;
    assert s[1..] == inner + "\"" + rest;
    assert s[1..][|inner|] == '"';
    assert s[1..][..|inner|] == inner;
    assert CharIndex(s[1..], '"') == |inner|;
    assert s[|inner| + 2..] == rest;
  }

  /** The preprocessing before `JSON.parse`. */
  function NormalizeQuotes(s: string): string {
    Text.ReplaceFirst(Text.SingleToDouble(BacktickQuoted(s)), "\"null\"", "null")
  }

  /** Replacing the first occurrence by text without `c` brings in no `c`. */
  lemma {:induction false} ReplaceFirstKeepsAbsent(t: string, pat: string, rep: string, c: char)
    requires pat != [] && c !in t && c !in rep
    ensures c !in Text.ReplaceFirst(t, pat, rep)
    decreases |t|
  {
    if |t| >= |pat| {
      if pat <= t {
        assert c !in t[|pat|..];
      } else {
        assert c !in t[1..];
        ReplaceFirstKeepsAbsent(t[1..], pat, rep, c);
      }
    }
  }

  /**
    After preprocessing no single quote is left: the ones inside quoted runs
    became backticks, the others double quotes; and only the first `"null"`
    became `null`, everything else is kept.
  */
  lemma NormalizedQuotes(s: string)
    ensures '\'' !in NormalizeQuotes(s)
    ensures var t := Text.SingleToDouble(BacktickQuoted(s));
      var i := Text.IndexOf(t, "\"null\"");
      NormalizeQuotes(s) == if i < 0 then t else t[..i] + "null" + t[i + 6..]
  {
    NoApostropheLeft(s);
    Text.ReplaceFirstAt(Text.SingleToDouble(BacktickQuoted(s)), "\"null\"", "null");
  }

  lemma NoApostropheLeft(s: string)
    ensures '\'' !in NormalizeQuotes(s)
  {
    var t := Text.SingleToDouble(BacktickQuoted(s));
    assert '\'' !in "null";
    ReplaceFirstKeepsAbsent(t, "\"null\"", "null", '\'');
  }

  // ---------------------------------------------------------------------------
  // Column clauses
  // ---------------------------------------------------------------------------

  /** One entry of a sheet's `data_types`: the column name and its SQL type. */
  datatype Dtype = Dtype(name: string, sqlType: string)

  function ColumnDefinition(d: Dtype): string {
    "`" + d.name + "` " + d.sqlType
  }

  function ColumnName(d: Dtype): string {
    "`" + d.name + "`"
  }

  function Definitions(ds: seq<Dtype>): (r: seq<string>)
    ensures |r| == |ds| && forall i :: 0 <= i < |ds| ==> r[i] == ColumnDefinition(ds[i])
  {
    seq(|ds|, i requires 0 <= i < |ds| => ColumnDefinition(ds[i]))
  }

  function ColumnNames(ds: seq<Dtype>): (r: seq<string>)
    ensures |r| == |ds| && forall i :: 0 <= i < |ds| ==> r[i] == ColumnName(ds[i])
  {
    seq(|ds|, i requires 0 <= i < |ds| => ColumnName(ds[i]))
  }

  /** The text of the first `i` items as the loop has built it: a separator follows each item but the last one. */
  function Built(items: seq<string>, i: nat): string
    requires i <= |items|
  {
    Text.Join(items[..i], ", ") + (if 0 < i < |items| then ", " else "")
  }

  lemma BuiltStep(items: seq<string>, i: nat)
    requires i < |items|
    ensures Built(items, i + 1) == Built(items, i) + items[i] + (if i == |items| - 1 then "" else ", ")
  {
    assert items[..i + 1] == items[..i] + [items[i]];
    if i > 0 {
      Text.JoinSnoc(items[..i], items[i], ", ");
    } else {
      assert items[..1] == [items[0]];
    }
  }

  /**
    The loop building `dtypes_str` and `columns`: the column definitions
    "`name` type", and the quoted column names, each joined by ", " in
    `data_types` order.
  */
  method BuildClauses(dtypes: seq<Dtype>) returns (dtypesStr: string, columns: string)
    ensures dtypesStr == Text.Join(Definitions(dtypes), ", ")
    ensures columns == Text.Join(ColumnNames(dtypes), ", ")
  {
    dtypesStr := "";
    columns := "";
    ghost var defs := Definitions(dtypes);
    ghost var names := ColumnNames(dtypes);
    for i := 0 to |dtypes|
      invariant dtypesStr == Built(defs, i)
      invariant columns == Built(names, i)
    {
      var column := "`" + dtypes[i].name + "`";
      var tmp := "`" + dtypes[i].name + "` " + dtypes[i].sqlType;
      BuiltStep(defs, i);
      BuiltStep(names, i);
      if i == |dtypes| - 1 {
        dtypesStr := dtypesStr + tmp;
        columns := columns + column;
      } else {
        dtypesStr := dtypesStr + tmp + ", ";
        columns := columns + column + ", ";
      }
    }
    assert defs[..|dtypes|] == defs;
    assert names[..|dtypes|] == names;
  }

  /** Two columns give "`id` INT, `name` TEXT" and "`id`, `name`": no separator after the last one. */
  lemma ClausesExample()
    ensures Text.Join(Definitions([Dtype("id", "INT"), Dtype("name", "TEXT")]), ", ") == "`id` INT, `name` TEXT"
    ensures Text.Join(ColumnNames([Dtype("id", "INT"), Dtype("name", "TEXT")]), ", ") == "`id`, `name`"
    ensures Text.Join(Definitions([]), ", ") == ""
  {
    var ds := [Dtype("id", "INT"), Dtype("name", "TEXT")];
    var defs, names := Definitions(ds), ColumnNames(ds);
    assert defs[0] == "`id` INT" && defs[1] == "`name` TEXT";
    assert names[0] == "`id`" && names[1] == "`name`";
    assert defs[1..] == ["`name` TEXT"];
    assert names[1..] == ["`name`"];
  }

  // ---------------------------------------------------------------------------
  // Sheets
  // ---------------------------------------------------------------------------

  /** `Object.values(r)` of one row: an object's values in key order, an array's items, a string's characters. */
  function RowValues(r: Json): (vs: Option<seq<Json>>)
    ensures r.JObj? ==> vs.Some? && |vs.value| == |r.fields| && forall i :: 0 <= i < |r.fields| ==> vs.value[i] == r.fields[i].1
    ensures r.JArr? ==> vs == Some(r.items)
    ensures r.JStr? ==> vs.Some? && |vs.value| == |r.s| && forall i :: 0 <= i < |r.s| ==> vs.value[i] == JStr([r.s[i]])
    ensures r.JNum? || r.JBool? ==> vs == Some([])
    ensures vs.None? <==> r.JNull?
  {
    match r
    case JObj(fs) => Some(seq(|fs|, i requires 0 <= i < |fs| => fs[i].1))
    case JArr(items) => Some(items)
    case JStr(s) => Some(seq(|s|, i requires 0 <= i < |s| => JStr([s[i]])))
    case JNull => None
    case _ => Some([])
  }

  /** `dtypes[i][0]` and `dtypes[i][1]`, when both are strings. */
  function DtypeOf(v: Json): Option<Dtype> {
    if v.JArr? && |v.items| >= 2 && v.items[0].JStr? && v.items[1].JStr? then Some(Dtype(v.items[0].s, v.items[1].s))
    else None
  }

  /** The `data_types` of a sheet, when it is a list of name/type pairs. */
  function SheetDtypes(sheet: Json): (r: Option<seq<Dtype>>)
    ensures r.Some? ==> sheet.JObj? && Get(sheet.fields, "data_types").Some?
  {
    if !sheet.JObj? then None
    else
      match Get(sheet.fields, "data_types")
      case Some(JArr(items)) =>
        if forall i :: 0 <= i < |items| ==> DtypeOf(items[i]).Some? then
          Some(seq(|items|, i requires 0 <= i < |items| => DtypeOf(items[i]).value))
        else None
      case _ => None
  }

  /** `rows_lst.map(r => Object.values(r))`, when `data_rows` is a list of non-null rows. */
  function SheetRows(sheet: Json): (r: Option<seq<seq<Json>>>)
    ensures r.Some? ==>
      sheet.JObj? && Get(sheet.fields, "data_rows").Some? && Get(sheet.fields, "data_rows").value.JArr? &&
      |r.value| == |Get(sheet.fields, "data_rows").value.items|
  {
    if !sheet.JObj? then None
    else
      match Get(sheet.fields, "data_rows")
      case Some(JArr(items)) =>
        if forall i :: 0 <= i < |items| ==> RowValues(items[i]).Some? then
          Some(seq(|items|, i requires 0 <= i < |items| => RowValues(items[i]).value))
        else None
      case _ => None
  }

  /** `sheet.sheet_name`; `None` is `undefined`. */
  function SheetName(sheet: Json): Option<Json> {
    if sheet.JObj? then Get(sheet.fields, "sheet_name") else None
  }

  /** The statements sent to the database. */
  datatype Statement =
    | Connect
    | ResetDatabase                                            // drop and re-create `uploaded`, then use it
    | CreateTable(table: Option<Json>, sql: string)
    | InsertRows(table: Option<Json>, sql: string, rows: seq<seq<Json>>)

  /** The database's answer to a statement: an error message, or `None` on success. */
  type Database = Statement -> Option<string>

  const CreatePrefix := "CREATE TABLE IF NOT EXISTS ?? ("

  function CreateStatement(name: Option<Json>, dtypes: seq<Dtype>): Statement {
    CreateTable(name, CreatePrefix + Text.Join(Definitions(dtypes), ", ") + ")")
  }

  function InsertStatement(name: Option<Json>, dtypes: seq<Dtype>, rows: seq<seq<Json>>): Statement {
    InsertRows(name, "INSERT INTO ?? (" + Text.Join(ColumnNames(dtypes), ", ") + ") VALUES ?", rows)
  }

  datatype BulkError =
    | ParseFailed                  // `JSON.parse` threw
    | MissingData                  // `data` is null or undefined, or the parsed value is null
    | NotIterable                  // `data` is a number, boolean or object
    | MalformedSheet(index: nat)   // reading sheet `index` threw
    | DbFailed(message: string)

  /**
    One iteration of the sheet loop: the statements it sends and the error
    that ends it, if any. The column clauses are read before the table is
    created, the rows after.
  */
  function SheetStep(sheet: Json, k: nat, db: Database): (seq<Statement>, Option<BulkError>) {
    match SheetDtypes(sheet)
    case None => ([], Some(MalformedSheet(k)))
    case Some(dtypes) =>
      var create := CreateStatement(SheetName(sheet), dtypes);
      if db(create).Some? then ([create], Some(DbFailed(db(create).value)))
      else
        match SheetRows(sheet)
        case None => ([create], Some(MalformedSheet(k)))
        case Some(rows) =>
          var insert := InsertStatement(SheetName(sheet), dtypes, rows);
          if db(insert).Some? then ([create, insert], Some(DbFailed(db(insert).value)))
          else ([create, insert], None)
  }

  /** One iteration of the sheet loop, as a function of the sheet and its index. */
  type Step = (Json, nat) -> (seq<Statement>, Option<BulkError>)

  function SheetStepOf(db: Database): Step {
    (sheet: Json, k: nat) => SheetStep(sheet, k, db)
  }

  /** The statements of the first `n` sheets, up to the first error. */
  function StepsUpTo(sheets: seq<Json>, n: nat, step: Step): (seq<Statement>, Option<BulkError>)
    requires n <= |sheets|
  {
    if n == 0 then ([], None)
    else
      var (log, err) := StepsUpTo(sheets, n - 1, step);
      if err.Some? then (log, err)
      else
        var (more, err2) := step(sheets[n - 1], n - 1);
        (log + more, err2)
  }

  function SheetsUpTo(sheets: seq<Json>, n: nat, db: Database): (seq<Statement>, Option<BulkError>)
    requires n <= |sheets|
  {
    StepsUpTo(sheets, n, SheetStepOf(db))
  }

  /** After the first error nothing more is sent. */
  lemma {:induction false} StepsUpToStops(sheets: seq<Json>, m: nat, n: nat, step: Step)
    requires m <= n <= |sheets|
    requires StepsUpTo(sheets, m, step).1.Some?
    ensures StepsUpTo(sheets, n, step) == StepsUpTo(sheets, m, step)
    decreases n - m
  {
    if m < n {
      StepsUpToStops(sheets, m, n - 1, step);
    }
  }

  lemma StepsUpToStep(sheets: seq<Json>, i: nat, step: Step, log: seq<Statement>, stmts: seq<Statement>, err: Option<BulkError>)
    requires i < |sheets|
    requires StepsUpTo(sheets, i, step) == (log, None)
    requires (stmts, err) == step(sheets[i], i)
    ensures StepsUpTo(sheets, i + 1, step) == (log + stmts, err)
  {
  }

  /** The names of all sheets, in order. */
  function SheetNames(sheets: seq<Json>): (r: seq<Option<Json>>)
    ensures |r| == |sheets| && forall i :: 0 <= i < |sheets| ==> r[i] == SheetName(sheets[i])
  {
    seq(|sheets|, i requires 0 <= i < |sheets| => SheetName(sheets[i]))
  }

  /**
    How `new Set` tells table names apart: strings, numbers, booleans, `null`
    and `undefined` by value, and the object or array parsed for a sheet by
    identity, so that no two sheets share one.
  */
  datatype NameKey = ByValue(name: Option<Json>) | ByIdentity(sheet: nat, value: Json)

  /** A name `new Set` compares by identity. */
  predicate IsReference(name: Option<Json>) {
    name.Some? && (name.value.JObj? || name.value.JArr?)
  }

  function KeyOf(name: Option<Json>, sheet: nat): NameKey {
    if IsReference(name) then ByIdentity(sheet, name.value) else ByValue(name)
  }

  function NameOfKey(k: NameKey): Option<Json> {
    match k
    case ByValue(n) => n
    case ByIdentity(_, v) => Some(v)
  }

  function NameKeys(names: seq<Option<Json>>): (ks: seq<NameKey>)
    ensures |ks| == |names| && forall i :: 0 <= i < |names| ==> ks[i] == KeyOf(names[i], i)
  {
    seq(|names|, i requires 0 <= i < |names| => KeyOf(names[i], i))
  }

  /**
    `Array.from(new Set(names))`: every name of a sheet is listed and only
    those; a name listed twice is an object or an array.
  */
  function SetNames(names: seq<Option<Json>>): (r: seq<Option<Json>>)
    ensures forall i :: 0 <= i < |r| ==> r[i] in names
    ensures forall i :: 0 <= i < |names| ==> names[i] in r
    ensures forall i, j :: 0 <= i < j < |r| && r[i] == r[j] ==> IsReference(r[i])
  {
    var ks := NameKeys(names);
    var d := Text.Dedup(ks);
    var r := seq(|d|, i requires 0 <= i < |d| => NameOfKey(d[i]));
    SetNamesShape(names, ks, d, r);
    r
  }

  lemma SetNamesShape(names: seq<Option<Json>>, ks: seq<NameKey>, d: seq<NameKey>, r: seq<Option<Json>>)
    requires ks == NameKeys(names) && Text.IsDedup(ks, d)
    requires |r| == |d| && forall i :: 0 <= i < |d| ==> r[i] == NameOfKey(d[i])
    ensures forall i :: 0 <= i < |r| ==> r[i] in names
    ensures forall i :: 0 <= i < |names| ==> names[i] in r
    ensures forall i, j :: 0 <= i < j < |r| && r[i] == r[j] ==> IsReference(r[i])
  {
    forall i | 0 <= i < |r| ensures r[i] in names && (!IsReference(r[i]) ==> d[i] == ByValue(r[i])) {
      var m := Text.FirstIndex(ks, d[i]);
      assert r[i] == names[m];
    }
    forall i | 0 <= i < |names| ensures names[i] in r {
      var j := Text.FirstIndex(d, ks[i]);
      assert r[j] == names[i];
    }
  }

  /** Without object or array names the list is the plain de-duplication: each name once, in first-seen order. */
  lemma {:induction false} PrimitiveNamesDedup(names: seq<Option<Json>>)
    requires forall i :: 0 <= i < |names| ==> !IsReference(names[i])
    ensures SetNames(names) == Text.Dedup(names)
  {
    DedupByValue(names);
  }

  lemma {:induction false} DedupByValue(names: seq<Option<Json>>)
    requires forall i :: 0 <= i < |names| ==> !IsReference(names[i])
    ensures var d := Text.Dedup(NameKeys(names));
      |d| == |Text.Dedup(names)| && forall i :: 0 <= i < |d| ==> d[i] == ByValue(Text.Dedup(names)[i])
    decreases |names|
  {
    if names != [] {
      var init, last := names[..|names| - 1], names[|names| - 1];
      assert names == init + [last];
      DedupByValue(init);
      var ks := NameKeys(init);
      assert NameKeys(names) == ks + [ByValue(last)];
      Text.DedupSnoc(ks, ByValue(last));
      Text.DedupSnoc(init, last);
      ByValueStep(Text.Dedup(ks), Text.Dedup(init), last);
    }
  }

  lemma ByValueStep(di: seq<NameKey>, dn: seq<Option<Json>>, last: Option<Json>)
    requires |di| == |dn| && forall i :: 0 <= i < |di| ==> di[i] == ByValue(dn[i])
    ensures var di' := if ByValue(last) in di then di else di + [ByValue(last)];
      var dn' := if last in dn then dn else dn + [last];
      |di'| == |dn'| && forall i :: 0 <= i < |di'| ==> di'[i] == ByValue(dn'[i])
  {
    if last in dn {
      var j := Text.FirstIndex(dn, last);
      assert di[j] == ByValue(last);
    }
  }

  /** When every sheet is named by an object or an array, each sheet keeps its own entry, even when the names are equal. */
  lemma ReferenceNamesKept(names: seq<Option<Json>>)
    requires forall i :: 0 <= i < |names| ==> IsReference(names[i])
    ensures SetNames(names) == names
  {
    var ks := NameKeys(names);
    forall i, j | 0 <= i < j < |ks| ensures ks[i] != ks[j] {
      assert ks[i].sheet == i && ks[j].sheet == j;
    }
    Text.DedupOfDistinct(ks);
  }

  /** Two sheets with the same string name give one table name. */
  lemma StringNamesMerged()
    ensures SetNames([Some(JStr("a")), Some(JStr("a"))]) == [Some(JStr("a"))]
  {
    var a := [Some(JStr("a")), Some(JStr("a"))];
    PrimitiveNamesDedup(a);
    assert a[..1] == [Some(JStr("a"))];
    assert a[..1][..0] == [];
  }

  lemma SheetNamesSnoc(sheets: seq<Json>, i: nat)
    requires i < |sheets|
    ensures SheetNames(sheets[..i + 1]) == SheetNames(sheets[..i]) + [SheetName(sheets[i])]
  {
    assert sheets[..i + 1] == sheets[..i] + [sheets[i]];
  }

  method ProcessSheet(sheet: Json, k: nat, db: Database) returns (stmts: seq<Statement>, err: Option<BulkError>)
    ensures (stmts, err) == SheetStep(sheet, k, db)
  {
    var tableName := SheetName(sheet);
    var dtypes := SheetDtypes(sheet);
    if dtypes.None? {
      return [], Some(MalformedSheet(k));
    }
    var dtypesStr, columns := BuildClauses(dtypes.value);
    var create := CreateTable(tableName, CreatePrefix + dtypesStr + ")");
    var answer := db(create);
    if answer.Some? {
      return [create], Some(DbFailed(answer.value));
    }
    var rowValues := SheetRows(sheet);
    if rowValues.None? {
      return [create], Some(MalformedSheet(k));
    }
    var insert := InsertRows(tableName, "INSERT INTO ?? (" + columns + ") VALUES ?", rowValues.value);
    answer := db(insert);
    if answer.Some? {
      return [create, insert], Some(DbFailed(answer.value));
    }
    return [create, insert], None;
  }

  // ---------------------------------------------------------------------------
  // The whole tool
  // ---------------------------------------------------------------------------

  datatype BulkResult =
    | Skipped                                                  // `{"OK": ""}`
    | Inserted(tables: seq<Option<Json>>)                      // `{"OK": [...]}`
    | Failed(error: BulkError, dataLength: nat, first200: string)
    | Threw(error: BulkError)                                  // the catch block itself threw: no result

  /** The uploaded text after tag removal, trimming and extraction of the first object. */
  function PreparedText(uploaded: string): string {
    ExtractFirstObject(Text.Trim(StripDocTags(uploaded)))
  }

  /** `s.substring(0, n)`. */
  function Prefix(s: string, n: nat): (r: string)
    ensures r <= s && |r| == if |s| < n then |s| else n
  {
    if |s| < n then s else s[..n]
  }

  /** What `for (const sheet of data)` iterates over, when `data` can be iterated. */
  function SheetsOf(data: Json): Option<seq<Json>> {
    match data
    case JArr(items) => Some(items)
    case JStr(s) => Some(seq(|s|, i requires 0 <= i < |s| => JStr([s[i]])))
    case _ => None
  }

  /** The `data` of the parsed upload, or the error reading it raises. */
  function DataOf(parsed: Json): Result<Json, BulkError> {
    if parsed.JObj? then
      match Get(parsed.fields, "data")
      case Some(d) => if d.JNull? then Failure(MissingData) else Success(d)
      case None => Failure(MissingData)
    else Failure(MissingData)
  }

  /** The `data` of the cleaned upload, or the error parsing it raises. */
  function ParsedData(text: string, codec: Codec): Result<Json, BulkError> {
    match codec.parse(NormalizeQuotes(text))
    case None => Failure(ParseFailed)
    case Some(parsed) => DataOf(parsed)
  }

  /**
    Whether the catch block itself throws on the error: before building the
    record it logs the text near the number in any message that mentions
    `position`, and a message without a digit has no number to read.
  */
  predicate CatchThrows(e: BulkError) {
    e.DbFailed? && Text.Contains(e.message, "position") && !HasDigit(e.message)
  }

  /** Whether `/\d+/` matches: some character is an ASCII digit. */
  predicate HasDigit(s: string) {
    exists i :: 0 <= i < |s| && '0' <= s[i] <= '9'
  }

  lemma NoDigitAppend(a: string, b: string)
    requires !HasDigit(a) && !HasDigit(b)
    ensures !HasDigit(a + b)
  {
    forall i | 0 <= i < |a + b| ensures !('0' <= (a + b)[i] <= '9') {
      if i >= |a| {
        assert (a + b)[i] == b[i - |a|];
      }
    }
  }

  /**
    The catch block: the error record with the message, the length of the
    cleaned text in UTF-16 code units and its first 200 characters, unless
    logging the error throws first.
  */
  function FailWith(e: BulkError, text: string): (r: BulkResult)
    ensures r.Threw? <==> CatchThrows(e)
    ensures r.Failed? <==> !CatchThrows(e)
    ensures r.error == e
    ensures r.Failed? ==> r.dataLength == Text.Utf16Length(text) && r.first200 <= text && |r.first200| == if |text| < 200 then |text| else 200
  {
    if CatchThrows(e) then Threw(e) else Failed(e, Text.Utf16Length(text), Prefix(text, 200))
  }

  /** A duplicate `position` column makes the catch block throw. */
  lemma PositionWithoutDigitThrows(text: string)
    ensures FailWith(DbFailed("Duplicate column 'position'"), text).Threw?
  {
    DuplicateMessageHasNoDigit();
    assert Text.OccursAt("Duplicate column 'position'", "position", 18);
  }

  lemma DuplicateMessageHasNoDigit()
    ensures !HasDigit("Duplicate column 'position'")
  {
    assert "Duplicate column 'position'" == "Duplicate " + "column '" + "position'";
    NoDigitAppend("Duplicate ", "column '");
    NoDigitAppend("Duplicate " + "column '", "position'");
  }

  /** A message that names a position by its number gives the record. */
  lemma PositionWithDigitRecorded(text: string)
    ensures FailWith(DbFailed("Unexpected token at position 12"), text).Failed?
  {
    assert "Unexpected token at position 12"[29] == '1';
  }

  /** After connecting and resetting the database: the sheet loop and its result. */
  function LoadSheets(data: Json, text: string, db: Database): (BulkResult, seq<Statement>) {
    match SheetsOf(data)
    case None => (FailWith(NotIterable, text), [Connect, ResetDatabase])
    case Some(sheets) =>
      var run := SheetsUpTo(sheets, |sheets|, db);
      (if run.1.Some? then FailWith(run.1.value, text) else Inserted(SetNames(SheetNames(sheets))),
       [Connect, ResetDatabase] + run.0)
  }

  /** The result and the statements sent, as the tool produces them. */
  function BulkSpec(fileCheck: Json, uploaded: string, codec: Codec, db: Database): (BulkResult, seq<Statement>) {
    if fileCheck != JStr("YES") then (Skipped, [])
    else
      var text := PreparedText(uploaded);
      match ParsedData(text, codec)
      case Failure(e) => (FailWith(e, text), [])
      case Success(data) =>
        if db(Connect).Some? then (FailWith(DbFailed(db(Connect).value), text), [Connect])
        else if db(ResetDatabase).Some? then (FailWith(DbFailed(db(ResetDatabase).value), text), [Connect, ResetDatabase])
        else LoadSheets(data, text, db)
  }

  /** The sheet loop: each sheet in order until the first error; the names of the sheets it reached. */
  method ProcessSheets(sheets: seq<Json>, db: Database) returns (log: seq<Statement>, err: Option<BulkError>, tableNames: seq<Option<Json>>)
    ensures (log, err) == SheetsUpTo(sheets, |sheets|, db)
    ensures err.None? ==> tableNames == SheetNames(sheets)
  {
    log, err, tableNames := [], None, [];
    ghost var step := SheetStepOf(db);
    var i := 0;
    while i < |sheets|
      invariant 0 <= i <= |sheets|
      invariant StepsUpTo(sheets, i, step).0 == log && StepsUpTo(sheets, i, step).1 == None
      invariant err.None?
      invariant tableNames == SheetNames(sheets[..i])
    {
      var sheet := sheets[i];
      SheetNamesSnoc(sheets, i);
      tableNames := tableNames + [SheetName(sheet)];
      var stmts;
      stmts, err := ProcessSheet(sheet, i, db);
      StepsUpToStep(sheets, i, step, log, stmts, err);
      log := log + stmts;
      if err.Some? {
        StepsUpToStops(sheets, i + 1, |sheets|, step);
        return;
      }
      i := i + 1;
    }
    assert sheets[..i] == sheets;
  }

  /** The text the tool parses, computed as the tool does. */
  method Prepare(uploaded: string) returns (dataJsonStr: string)
    ensures dataJsonStr == PreparedText(uploaded)
  {
    dataJsonStr := Text.Trim(StripDocTags(uploaded));
    if HasObjectBoundary(dataJsonStr) {
      var firstJsonEnd := FirstJsonEnd(dataJsonStr);
      if firstJsonEnd > -1 {
        dataJsonStr := dataJsonStr[..firstJsonEnd + 1];
      }
    }
  }

  /** The tool: clean the upload, parse it, and load each sheet into its own table. */
  method BulkInsertFile(fileCheck: Json, uploaded: string, codec: Codec, db: Database) returns (r: BulkResult, log: seq<Statement>)
    ensures (r, log) == BulkSpec(fileCheck, uploaded, codec, db)
  {
    if fileCheck != JStr("YES") {
      return Skipped, [];
    }
    var dataJsonStr := Prepare(uploaded);
    var data: Result<Json, BulkError>;
    var parsed := codec.parse(NormalizeQuotes(dataJsonStr));
    if parsed.None? {
      data := Failure(ParseFailed);
    } else {
      data := DataOf(parsed.value);
    }
    if data.Failure? {
      return FailWith(data.error, dataJsonStr), [];
    }
    var answer := db(Connect);
    if answer.Some? {
      return FailWith(DbFailed(answer.value), dataJsonStr), [Connect];
    }
    answer := db(ResetDatabase);
    if answer.Some? {
      return FailWith(DbFailed(answer.value), dataJsonStr), [Connect, ResetDatabase];
    }
    var sheets := SheetsOf(data.value);
    if sheets.None? {
      return FailWith(NotIterable, dataJsonStr), [Connect, ResetDatabase];
    }
    var sheetLog, err, tableNames := ProcessSheets(sheets.value, db);
    log := [Connect, ResetDatabase] + sheetLog;
    if err.Some? {
      return FailWith(err.value, dataJsonStr), log;
    }
    return Inserted(SetNames(tableNames)), log;
  }

  // ---------------------------------------------------------------------------
  // Properties of the whole tool
  // ---------------------------------------------------------------------------

  predicate AllSucceed(log: seq<Statement>, db: Database) {
    forall i :: 0 <= i < |log| ==> db(log[i]).None?
  }

  /**
    What a run of the sheet loop sent: when it ends without error every
    statement succeeded; when a statement failed, it is the last one sent and
    its message is the error's; when a sheet was malformed, every statement
    sent succeeded.
  */
  predicate Consistent(log: seq<Statement>, err: Option<BulkError>, db: Database) {
    (err.None? ==> AllSucceed(log, db)) &&
    (err.Some? && err.value.DbFailed? ==> log != [] && AllSucceed(log[..|log| - 1], db) && db(log[|log| - 1]) == Some(err.value.message)) &&
    (err.Some? && !err.value.DbFailed? ==> AllSucceed(log, db))
  }

  lemma SheetStepConsistent(sheet: Json, k: nat, db: Database)
    ensures Consistent(SheetStep(sheet, k, db).0, SheetStep(sheet, k, db).1, db)
    ensures SheetStep(sheet, k, db).1 != Some(NotIterable)
  {
    var (stmts, err) := SheetStep(sheet, k, db);
    if |stmts| == 2 {
      assert stmts[..1] == [stmts[0]];
    }
  }

  /** Every step of the loop sends a consistent log. */
  ghost predicate StepConsistent(step: Step, db: Database) {
    forall sheet, k :: Consistent(step(sheet, k).0, step(sheet, k).1, db)
  }

  lemma SheetStepOfConsistent(db: Database)
    ensures StepConsistent(SheetStepOf(db), db)
  {
    forall sheet, k: nat
      ensures Consistent(SheetStepOf(db)(sheet, k).0, SheetStepOf(db)(sheet, k).1, db)
    {
      SheetStepConsistent(sheet, k, db);
    }
  }

  lemma ConsistentAppend(log: seq<Statement>, more: seq<Statement>, err: Option<BulkError>, db: Database)
    requires AllSucceed(log, db)
    requires Consistent(more, err, db)
    ensures Consistent(log + more, err, db)
  {
    var all := log + more;
    assert forall i :: 0 <= i < |log| ==> all[i] == log[i];
    assert forall i :: |log| <= i < |all| ==> all[i] == more[i - |log|];
    if err.Some? && err.value.DbFailed? {
      assert all[..|all| - 1] == log + more[..|more| - 1];
      var init := all[..|all| - 1];
      assert forall i :: |log| <= i < |init| ==> init[i] == more[..|more| - 1][i - |log|];
    }
  }

  lemma {:induction false} StepsUpToConsistent(sheets: seq<Json>, n: nat, step: Step, db: Database)
    requires n <= |sheets|
    requires StepConsistent(step, db)
    ensures Consistent(StepsUpTo(sheets, n, step).0, StepsUpTo(sheets, n, step).1, db)
  {
    if n > 0 {
      StepsUpToConsistent(sheets, n - 1, step, db);
      var log := StepsUpTo(sheets, n - 1, step).0;
      if StepsUpTo(sheets, n - 1, step).1.None? {
        var more := step(sheets[n - 1], n - 1).0;
        var err2 := step(sheets[n - 1], n - 1).1;
        assert StepsUpTo(sheets, n, step).0 == log + more;
        assert StepsUpTo(sheets, n, step).1 == err2;
        ConsistentAppend(log, more, err2, db);
      }
    }
  }

  lemma SheetsUpToConsistent(sheets: seq<Json>, db: Database)
    ensures Consistent(SheetsUpTo(sheets, |sheets|, db).0, SheetsUpTo(sheets, |sheets|, db).1, db)
  {
    SheetStepOfConsistent(db);
    StepsUpToConsistent(sheets, |sheets|, SheetStepOf(db), db);
  }

  /** The tool runs only when `file_check` is the string "YES", and otherwise sends nothing. */
  lemma SkippedUnlessYes(fileCheck: Json, uploaded: string, codec: Codec, db: Database)
    ensures BulkSpec(fileCheck, uploaded, codec, db).0.Skipped? <==> fileCheck != JStr("YES")
    ensures fileCheck != JStr("YES") ==> BulkSpec(fileCheck, uploaded, codec, db).1 == []
  {
  }

  /** The sheet loop reports only malformed sheets and database errors. */
  lemma {:induction false} StepsUpToErrors(sheets: seq<Json>, n: nat, db: Database)
    requires n <= |sheets|
    ensures StepsUpTo(sheets, n, SheetStepOf(db)).1.Some? ==>
      StepsUpTo(sheets, n, SheetStepOf(db)).1.value.MalformedSheet? || StepsUpTo(sheets, n, SheetStepOf(db)).1.value.DbFailed?
  {
    if n > 0 {
      StepsUpToErrors(sheets, n - 1, db);
    }
  }

  /** The part after the database reset: what it sends is consistent with how it ends. */
  lemma LoadSheetsOutcome(data: Json, text: string, db: Database)
    requires db(Connect).None? && db(ResetDatabase).None?
    ensures var (r, log) := LoadSheets(data, text, db);
      !r.Skipped? && |log| >= 2 && log[0] == Connect && log[1] == ResetDatabase &&
      (r.Inserted? ==> AllSucceed(log, db)) &&
      (r.Failed? || r.Threw? ==> r == FailWith(r.error, text) && !r.error.ParseFailed? && !r.error.MissingData? && Consistent(log, Some(r.error), db))
  {
    if SheetsOf(data).Some? {
      var sheets := SheetsOf(data).value;
      var run := SheetsUpTo(sheets, |sheets|, db);
      SheetsUpToConsistent(sheets, db);
      StepsUpToErrors(sheets, |sheets|, db);
      ConsistentAppend([Connect, ResetDatabase], run.0, run.1, db);
    }
  }

  /**
    Every failure reports the length of the cleaned text and its first 200
    characters, except that the tool throws instead when the failure is a
    database message that mentions `position` without a digit; nothing
    reaches the database before the upload has been parsed and its `data`
    found.
  */
  lemma FailureRecord(fileCheck: Json, uploaded: string, codec: Codec, db: Database)
    ensures var (r, log) := BulkSpec(fileCheck, uploaded, codec, db);
      r.Failed? ==> r.dataLength == Text.Utf16Length(PreparedText(uploaded)) && r.first200 == Prefix(PreparedText(uploaded), 200)
    ensures var (r, log) := BulkSpec(fileCheck, uploaded, codec, db);
      r.Failed? || r.Threw? ==> (r.Threw? <==> r.error.DbFailed? && CatchThrows(r.error))
    ensures var (r, log) := BulkSpec(fileCheck, uploaded, codec, db);
      r.Threw? ==> Text.Contains(r.error.message, "position") && forall i :: 0 <= i < |r.error.message| ==> !('0' <= r.error.message[i] <= '9')
    ensures var (r, log) := BulkSpec(fileCheck, uploaded, codec, db);
      (r.Failed? || r.Threw?) && (r.error == ParseFailed || r.error == MissingData) ==> log == []
  {
    var text := PreparedText(uploaded);
    if fileCheck == JStr("YES") && ParsedData(text, codec).Success? && db(Connect).None? && db(ResetDatabase).None? {
      LoadSheetsOutcome(ParsedData(text, codec).value, text, db);
    }
  }

  /**
    A successful run connected, reset the database, and every statement it
    sent succeeded; it reports the sheet names as a JavaScript `Set` keeps
    them: each string, number, boolean or `null` once, each object or array
    once per sheet it names.
  */
  lemma InsertedOutcome(fileCheck: Json, uploaded: string, codec: Codec, db: Database)
    requires BulkSpec(fileCheck, uploaded, codec, db).0.Inserted?
    ensures var (r, log) := BulkSpec(fileCheck, uploaded, codec, db);
      |log| >= 2 && log[0] == Connect && log[1] == ResetDatabase && AllSucceed(log, db)
    ensures var (r, log) := BulkSpec(fileCheck, uploaded, codec, db);
      ParsedData(PreparedText(uploaded), codec).Success? &&
      SheetsOf(ParsedData(PreparedText(uploaded), codec).value).Some? &&
      r.tables == SetNames(SheetNames(SheetsOf(ParsedData(PreparedText(uploaded), codec).value).value))
    ensures var tables := BulkSpec(fileCheck, uploaded, codec, db).0.tables;
      forall i, j :: 0 <= i < j < |tables| && tables[i] == tables[j] ==> IsReference(tables[i])
  {
    var text := PreparedText(uploaded);
    LoadSheetsOutcome(ParsedData(text, codec).value, text, db);
  }

  /**
    A failed run, whether it returns the record or the catch block throws,
    stopped at its first failing statement: every statement before it
    succeeded, and a database error carries that statement's message; any
    other failure sent only statements that succeeded.
  */
  lemma FailedOutcome(fileCheck: Json, uploaded: string, codec: Codec, db: Database)
    requires BulkSpec(fileCheck, uploaded, codec, db).0.Failed? || BulkSpec(fileCheck, uploaded, codec, db).0.Threw?
    ensures Consistent(BulkSpec(fileCheck, uploaded, codec, db).1, Some(BulkSpec(fileCheck, uploaded, codec, db).0.error), db)
  {
    var text := PreparedText(uploaded);
    if ParsedData(text, codec).Success? {
      if db(Connect).Some? {
        ConnectFailed(db);
      } else if db(ResetDatabase).Some? {
        ResetFailed(db);
      } else {
        LoadSheetsOutcome(ParsedData(text, codec).value, text, db);
      }
    }
  }

  lemma ConnectFailed(db: Database)
    requires db(Connect).Some?
    ensures Consistent([Connect], Some(DbFailed(db(Connect).value)), db)
  {
    assert [Connect][..0] == [];
  }

  lemma ResetFailed(db: Database)
    requires db(Connect).None? && db(ResetDatabase).Some?
    ensures Consistent([Connect, ResetDatabase], Some(DbFailed(db(ResetDatabase).value)), db)
  {
    assert [Connect, ResetDatabase][..1] == [Connect];
  }
}
