/**
  The chart tool of KIC/tool_get_iframe_tag.py: validation of a chart
  request, the type-switch button group of the basic charts, the colour
  and style decoration of the datasets of mixed and dual-axis charts, and
  the y-axis configuration of dual-axis charts. Writing the HTML page,
  saving it and uploading it are not modelled; the result is the part of
  the page each chart type is built from.
*/
module ChartTool {
  import opened Wrappers
  import Text
  import opened Json

  /**
    What the tool was called with: a dictionary, a string to be parsed as
    JSON, or a value of another Python type. A Python dict holds each key
    once, so the fields of a `DictInput` stand for a call only when their
    keys are distinct; a field list with a repeated key corresponds to no
    call, and what the model says about it has no counterpart in the source.
  */
  datatype ToolInput = DictInput(fields: Fields) | StrInput(text: string) | OtherInput(typeName: string)

  datatype ChartError =
    | ParseFailed                    // the string is not JSON
    | UnsupportedInput(typeName: string)
    | MissingChartType
    | UnsupportedChartType(value: Json)
    | MissingBasicValues             // bar/line/pie without x_values or y_values
    | LengthMismatch                 // bar/line/pie with x_values and y_values of different lengths
    | MissingMixedFields             // mixed/dual_axis without x_values or datasets
    | EmptyDatasets
    | MissingYAxes                   // dual_axis without y_axes
    | GenerationFailed               // building the chart from the validated data raised
    | Unexpected                     // any other exception, caught by the outermost handler

  const BasicTypes: seq<string> := ["bar", "line", "pie"]
  const SupportedTypes: seq<string> := ["bar", "line", "pie", "mixed", "dual_axis"]

  /**
    The message returned for each error. The text of the caught exception,
    which the source appends after a dash to the parse, generation and
    unexpected errors, is not modelled; `repr` is Python's `str` of a
    non-string value.
  */
  function Message(e: ChartError, repr: Json -> string): string {
    match e
    case ParseFailed => "ERROR: JSON 파싱 실패 - "
    case UnsupportedInput(t) => "ERROR: 지원하지 않는 입력 타입 '<class '" + t + "'>'. str 또는 dict 타입이어야 합니다."
    case MissingChartType => "ERROR: 'chart_type' 필드가 누락되었습니다."
    case UnsupportedChartType(v) =>
      "ERROR: 지원하지 않는 chart_type '" + (if v.JStr? then v.s else repr(v))
      + "'. 지원 타입: ['bar', 'line', 'pie', 'mixed', 'dual_axis']"
    case MissingBasicValues => "ERROR: 기본 차트에는 'x_values'와 'y_values' 필드가 필요합니다."
    case LengthMismatch => "ERROR: x_values와 y_values의 길이가 일치하지 않습니다."
    case MissingMixedFields => "ERROR: 혼합/이중축 차트에는 'x_values'와 'datasets' 필드가 필요합니다."
    case EmptyDatasets => "ERROR: datasets가 비어있습니다."
    case MissingYAxes => "ERROR: 이중축 차트에는 'y_axes' 필드가 필요합니다."
    case GenerationFailed => "ERROR: HTML 생성 실패 - "
    case Unexpected => "ERROR: 예상치 못한 오류 - "
  }

  predicate Has(fields: Fields, key: string) {
    key in Keys(fields)
  }

  /** Python's `len` of a JSON value; `None` where `len` raises. */
  function Len(v: Json): Option<nat> {
    match v
    case JArr(items) => Some(|items|)
    case JStr(s) => Some(|s|)
    case JObj(fs) => Some(|fs|)
    case _ => None
  }

  /** The data the input denotes: the dictionary itself or the parsed string. */
  function InputData(input: ToolInput, codec: Codec): Result<Json, ChartError> {
    match input
    case DictInput(fs) => Success(JObj(fs))
    case StrInput(text) =>
      (match codec.parse(text)
       case None => Failure(ParseFailed)
       case Some(j) => Success(j))
    case OtherInput(t) => Failure(UnsupportedInput(t))
  }

  /**
    `'chart_type' not in data` and `data['chart_type']` on whatever the data
    is: only an object gets past it. A list or string that contains
    `'chart_type'` reaches the subscript and raises, as does a membership
    test on a number, boolean or null.
  */
  function ChartTypeCheck(data: Json): Result<Fields, ChartError> {
    match data
    case JObj(fs) => if Has(fs, "chart_type") then Success(fs) else Failure(MissingChartType)
    case JArr(items) => if JStr("chart_type") in items then Failure(Unexpected) else Failure(MissingChartType)
    case JStr(s) => if Text.Contains(s, "chart_type") then Failure(Unexpected) else Failure(MissingChartType)
    case _ => Failure(Unexpected)
  }

  /** The per-type field checks, in the source's order. */
  function FieldChecks(fs: Fields): Result<Fields, ChartError>
    requires Has(fs, "chart_type")
  {
    var ct := Get(fs, "chart_type").value;
    if ct !in [JStr("bar"), JStr("line"), JStr("pie"), JStr("mixed"), JStr("dual_axis")] then
      Failure(UnsupportedChartType(ct))
    else if ct in [JStr("bar"), JStr("line"), JStr("pie")] then
      if !Has(fs, "x_values") || !Has(fs, "y_values") then Failure(MissingBasicValues)
      else
        var lx := Len(Get(fs, "x_values").value);
        var ly := Len(Get(fs, "y_values").value);
        if lx.None? || ly.None? then Failure(Unexpected)
        else if lx.value != ly.value then Failure(LengthMismatch)
        else Success(fs)
    else
      if !Has(fs, "x_values") || !Has(fs, "datasets") then Failure(MissingMixedFields)
      else if PyFalsy(Get(fs, "datasets").value) then Failure(EmptyDatasets)
      else if ct == JStr("dual_axis") && !Has(fs, "y_axes") then Failure(MissingYAxes)
      else Success(fs)
  }

  /** The validation block: the request data, or the first error. */
  function Validate(input: ToolInput, codec: Codec): Result<Fields, ChartError> {
    match InputData(input, codec)
    case Failure(e) => Failure(e)
    case Success(data) =>
      (match ChartTypeCheck(data)
       case Failure(e) => Failure(e)
       case Success(fs) => FieldChecks(fs))
  }

  /** The chart type of validated data, as a string. */
  function ChartTypeOf(fs: Fields): string
    requires Has(fs, "chart_type") && Get(fs, "chart_type").value.JStr?
  {
    Get(fs, "chart_type").value.s
  }

  /**
    A well-formed request, stated field by field: a supported chart type;
    for the basic charts both value lists, of equal length; for the others
    x values and non-empty datasets, and y axes for the dual-axis chart.
  */
  predicate WellFormed(fs: Fields) {
    && Has(fs, "chart_type")
    && Get(fs, "chart_type").value.JStr?
    && ChartTypeOf(fs) in SupportedTypes
    && (ChartTypeOf(fs) in BasicTypes ==>
          && Has(fs, "x_values") && Has(fs, "y_values")
          && Len(Get(fs, "x_values").value).Some?
          && Len(Get(fs, "x_values").value) == Len(Get(fs, "y_values").value))
    && (ChartTypeOf(fs) !in BasicTypes ==>
          && Has(fs, "x_values") && Has(fs, "datasets")
          && !PyFalsy(Get(fs, "datasets").value)
          && (ChartTypeOf(fs) == "dual_axis" ==> Has(fs, "y_axes")))
  }

  /** A dictionary passes validation exactly when it is well formed, and then it is returned unchanged. */
  lemma ValidateDict(fs: Fields, codec: Codec)
    ensures Validate(DictInput(fs), codec).Success? <==> WellFormed(fs)
    ensures Validate(DictInput(fs), codec).Success? ==> Validate(DictInput(fs), codec).value == fs
  {
    if Has(fs, "chart_type") {
      var ct := Get(fs, "chart_type").value;
      if ct in [JStr("bar"), JStr("line"), JStr("pie"), JStr("mixed"), JStr("dual_axis")] {
        assert ct.JStr?;
      }
    }
  }

  /** A string input behaves as the dictionary it parses to; a failed parse or a value of another type is rejected first. */
  lemma ValidateInputKinds(input: ToolInput, codec: Codec)
    ensures input.OtherInput? ==> Validate(input, codec) == Failure(UnsupportedInput(input.typeName))
    ensures input.StrInput? && codec.parse(input.text).None? ==> Validate(input, codec) == Failure(ParseFailed)
    ensures input.StrInput? && codec.parse(input.text).Some? && codec.parse(input.text).value.JObj? ==>
      Validate(input, codec) == Validate(DictInput(codec.parse(input.text).value.fields), codec)
  {
  }

  /** Data that is not an object never passes validation: it has no `chart_type` to read. */
  lemma NonObjectRejected(input: ToolInput, codec: Codec)
    requires InputData(input, codec).Success? && !InputData(input, codec).value.JObj?
    ensures Validate(input, codec).Failure?
    ensures Validate(input, codec).error in {MissingChartType, Unexpected}
  {
  }

  // ---------------------------------------------------------------------------
  // The button group of the basic charts
  // ---------------------------------------------------------------------------

  /** `str.capitalize` on the three basic type names. */
  function Capitalized(ct: string): string {
    if ct == [] then [] else [Text.UpperChar(ct[0])] + Text.Lower(ct[1..])
  }

  function ButtonClass(ct: string, cur: string): string {
    "switch-btn" + (if ct == cur then " active" else "")
  }

  function ButtonTag(ct: string, cur: string): string {
    "<button class=\"" + ButtonClass(ct, cur) + "\" onclick=\"switchChartType('" + ct + "')\">" + Capitalized(ct) + "</button>"
  }

  /** The opening of the group followed by the buttons for the first `n` basic types, in order. */
  function ButtonsUpTo(n: nat, cur: string): string
    requires n <= |BasicTypes|
  {
    if n == 0 then "<div class=\"button-group\">" else ButtonsUpTo(n - 1, cur) + ButtonTag(BasicTypes[n - 1], cur)
  }

  function ButtonGroupHtml(cur: string): string {
    ButtonsUpTo(|BasicTypes|, cur) + "</div>"
  }

  /** The loop of `generate_chart_html` that assembles the button group. */
  method ButtonGroup(cur: string) returns (html: string)
    ensures html == ButtonGroupHtml(cur)
  {
    html := "<div class=\"button-group\">";
    for i := 0 to |BasicTypes|
      invariant html == ButtonsUpTo(i, cur)
    {
      html := html + ButtonTag(BasicTypes[i], cur);
    }
    html := html + "</div>";
  }

  /** A button carries the `active` class exactly when it is the current chart type. */
  lemma ActiveIff(ct: string, cur: string)
    ensures ButtonClass(ct, cur) == "switch-btn active" <==> ct == cur
  {
    if ct != cur {
      assert |ButtonClass(ct, cur)| == 10;
    }
  }

  /** There are three buttons, for bar, line and pie in that order. */
  lemma ButtonGroupShape(cur: string)
    ensures ButtonGroupHtml(cur) ==
      "<div class=\"button-group\">" + ButtonTag("bar", cur) + ButtonTag("line", cur) + ButtonTag("pie", cur) + "</div>"
  {
    var open := "<div class=\"button-group\">";
    assert ButtonsUpTo(1, cur) == open + ButtonTag("bar", cur);
    assert ButtonsUpTo(2, cur) == open + ButtonTag("bar", cur) + ButtonTag("line", cur);
    assert ButtonsUpTo(3, cur) == open + ButtonTag("bar", cur) + ButtonTag("line", cur) + ButtonTag("pie", cur);
  }

  /** For a basic chart type exactly one button is active, and for any other type none is. */
  lemma OneActive(cur: string)
    ensures forall i :: 0 <= i < |BasicTypes| ==> (ButtonClass(BasicTypes[i], cur) == "switch-btn active" <==> BasicTypes[i] == cur)
    ensures cur in BasicTypes <==> exists i :: 0 <= i < |BasicTypes| && ButtonClass(BasicTypes[i], cur) == "switch-btn active"
    ensures forall i, j :: 0 <= i < j < |BasicTypes| ==>
      !(ButtonClass(BasicTypes[i], cur) == "switch-btn active" && ButtonClass(BasicTypes[j], cur) == "switch-btn active")
  {
    forall i | 0 <= i < |BasicTypes|
      ensures ButtonClass(BasicTypes[i], cur) == "switch-btn active" <==> BasicTypes[i] == cur
    {
      ActiveIff(BasicTypes[i], cur);
    }
    assert BasicTypes[0] != BasicTypes[1] && BasicTypes[0] != BasicTypes[2] && BasicTypes[1] != BasicTypes[2];
  }

  /** The visible button labels. */
  lemma ButtonLabels()
    ensures Capitalized("bar") == "Bar" && Capitalized("line") == "Line" && Capitalized("pie") == "Pie"
  {
    assert Text.Lower("ar") == "ar";
    assert Text.Lower("ine") == "ine";
    assert Text.Lower("ie") == "ie";
  }

  // ---------------------------------------------------------------------------
  // Dataset decoration of mixed and dual-axis charts
  // ---------------------------------------------------------------------------

  const Colors: seq<string> := [
    "rgba(54,162,235,0.6)",
    "rgba(255,99,132,0.6)",
    "rgba(255,206,86,0.6)",
    "rgba(75,192,192,0.6)",
    "rgba(153,102,255,0.6)"
  ]

  /** The keys the decoration may write. */
  const StyleKeys: seq<string> := ["backgroundColor", "borderColor", "fill", "tension", "yAxisID"]

  predicate IsLine(ds: Fields) {
    Get(ds, "type") == Some(JStr("line"))
  }

  /** The line-style step: a line dataset gets no fill and a 0.2 tension. */
  function LineStyle(obj: Fields, ds: Fields): Fields {
    if IsLine(ds) then Set(Set(obj, "fill", JBool(false)), "tension", JNum(0.2)) else obj
  }

  /** The mixed chart's axis step: `yAxisID` defaults to `y`. */
  function AxisDefault(obj: Fields, mixed: bool): Fields {
    if mixed && !Has(obj, "yAxisID") then Set(obj, "yAxisID", JStr("y")) else obj
  }

  /** Dataset `idx` as the chart receives it. */
  function Decorated(ds: Fields, idx: nat, mixed: bool): Fields {
    var color := JStr(Colors[idx % |Colors|]);
    AxisDefault(LineStyle(Set(Set(ds, "backgroundColor", color), "borderColor", color), ds), mixed)
  }

  /** `[f(dss[0], 0), ..., f(dss[n-1], n-1)]`: the shape of `enumerate` in a loop. */
  function MapIndexed(dss: seq<Fields>, n: nat, f: (Fields, nat) -> Fields): (out: seq<Fields>)
    requires n <= |dss|
    ensures |out| == n
  {
    if n == 0 then [] else MapIndexed(dss, n - 1, f) + [f(dss[n - 1], n - 1)]
  }

  lemma {:induction false} MapIndexedAt(dss: seq<Fields>, n: nat, f: (Fields, nat) -> Fields, i: nat)
    requires n <= |dss| && i < n
    ensures MapIndexed(dss, n, f)[i] == f(dss[i], i)
  {
    if i < n - 1 {
      MapIndexedAt(dss, n - 1, f, i);
    }
  }

  /** The first `n` datasets, decorated. */
  function DecoratedUpTo(dss: seq<Fields>, n: nat, mixed: bool): (out: seq<Fields>)
    requires n <= |dss|
    ensures |out| == n
  {
    MapIndexed(dss, n, (ds: Fields, j: nat) => Decorated(ds, j, mixed))
  }

  /** Dataset `i` of the result is dataset `i` of the input, decorated with palette entry `i`: order and count are kept. */
  lemma DecoratedUpToAt(dss: seq<Fields>, mixed: bool, i: nat)
    requires i < |dss|
    ensures |DecoratedUpTo(dss, |dss|, mixed)| == |dss|
    ensures DecoratedUpTo(dss, |dss|, mixed)[i] == Decorated(dss[i], i, mixed)
  {
    MapIndexedAt(dss, |dss|, (ds: Fields, j: nat) => Decorated(ds, j, mixed), i);
  }

  lemma DecoratedUpToStep(dss: seq<Fields>, n: nat, mixed: bool)
    requires n < |dss|
    ensures DecoratedUpTo(dss, n + 1, mixed) == DecoratedUpTo(dss, n, mixed) + [Decorated(dss[n], n, mixed)]
  {
  }

  /** The loop filling `js_datasets`; `mixed` selects the mixed chart's `yAxisID` default. */
  method DecorateDatasets(dss: seq<Fields>, mixed: bool) returns (out: seq<Fields>)
    ensures out == DecoratedUpTo(dss, |dss|, mixed)
  {
    out := [];
    for idx := 0 to |dss|
      invariant out == DecoratedUpTo(dss, idx, mixed)
    {
      var ds := dss[idx];
      var obj := ds;
      obj := Set(obj, "backgroundColor", JStr(Colors[idx % |Colors|]));
      obj := Set(obj, "borderColor", JStr(Colors[idx % |Colors|]));
      ghost var colored := obj;
      if Get(ds, "type") == Some(JStr("line")) {
        obj := Set(obj, "fill", JBool(false));
        obj := Set(obj, "tension", JNum(0.2));
      }
      assert obj == LineStyle(colored, ds);
      ghost var styled := obj;
      if mixed && !Has(obj, "yAxisID") {
        obj := Set(obj, "yAxisID", JStr("y"));
      }
      assert obj == AxisDefault(styled, mixed);
      DecoratedUpToStep(dss, idx, mixed);
      out := out + [obj];
    }
  }

  /** The colour step: both colours are set, nothing else changes, and no key is lost. */
  lemma ColorFields(ds: Fields, color: Json)
    ensures var o := Set(Set(ds, "backgroundColor", color), "borderColor", color);
      && Get(o, "backgroundColor") == Some(color) && Get(o, "borderColor") == Some(color)
      && (forall k :: k != "backgroundColor" && k != "borderColor" ==> Get(o, k) == Get(ds, k))
      && Keys(ds) <= Keys(o)
  {
    var o1 := Set(ds, "backgroundColor", color);
    var o := Set(o1, "borderColor", color);
    assert Get(o, "backgroundColor") == Get(o1, "backgroundColor");
    forall k | k != "backgroundColor" && k != "borderColor"
      ensures Get(o, k) == Get(ds, k)
    {
      assert Get(o, k) == Get(o1, k);
    }
    SetKeys(ds, "backgroundColor", color);
    SetKeys(o1, "borderColor", color);
  }

  /** The line-style step sets `fill` and `tension` for a line dataset only, and changes nothing else. */
  lemma LineStyleFields(obj: Fields, ds: Fields)
    ensures var o := LineStyle(obj, ds);
      && (IsLine(ds) ==> Get(o, "fill") == Some(JBool(false)) && Get(o, "tension") == Some(JNum(0.2)))
      && (!IsLine(ds) ==> o == obj)
      && (forall k :: k != "fill" && k != "tension" ==> Get(o, k) == Get(obj, k))
      && Keys(obj) <= Keys(o)
  {
    if IsLine(ds) {
      var o1 := Set(obj, "fill", JBool(false));
      var o := Set(o1, "tension", JNum(0.2));
      assert Get(o, "fill") == Get(o1, "fill");
      SetKeys(obj, "fill", JBool(false));
      SetKeys(o1, "tension", JNum(0.2));
      assert Keys(obj) <= Keys(o1) <= Keys(o);
    }
  }

  /** The default step keeps an existing `yAxisID`, adds `y` otherwise, and changes nothing else. */
  lemma AxisDefaultFields(obj: Fields, mixed: bool)
    ensures var o := AxisDefault(obj, mixed);
      && (mixed ==> Get(o, "yAxisID") == if Has(obj, "yAxisID") then Get(obj, "yAxisID") else Some(JStr("y")))
      && (!mixed ==> o == obj)
      && (forall k :: k != "yAxisID" ==> Get(o, k) == Get(obj, k))
      && Keys(obj) <= Keys(o)
  {
    SetKeys(obj, "yAxisID", JStr("y"));
  }

  /** Both colours of dataset `idx` are palette entry `idx mod 5`. */
  lemma DecoratedColors(ds: Fields, idx: nat, mixed: bool)
    ensures var d := Decorated(ds, idx, mixed);
      && Get(d, "backgroundColor") == Some(JStr(Colors[idx % 5]))
      && Get(d, "borderColor") == Some(JStr(Colors[idx % 5]))
  {
    var color := JStr(Colors[idx % |Colors|]);
    var o2 := Set(Set(ds, "backgroundColor", color), "borderColor", color);
    var o3 := LineStyle(o2, ds);
    ColorFields(ds, color);
    LineStyleFields(o2, ds);
    AxisDefaultFields(o3, mixed);
  }

  /** A line dataset has no fill and tension 0.2; any other dataset keeps what it had. */
  lemma DecoratedLineStyle(ds: Fields, idx: nat, mixed: bool)
    ensures var d := Decorated(ds, idx, mixed);
      && (IsLine(ds) ==> Get(d, "fill") == Some(JBool(false)) && Get(d, "tension") == Some(JNum(0.2)))
      && (!IsLine(ds) ==> Get(d, "fill") == Get(ds, "fill") && Get(d, "tension") == Get(ds, "tension"))
  {
    var color := JStr(Colors[idx % |Colors|]);
    var o2 := Set(Set(ds, "backgroundColor", color), "borderColor", color);
    var o3 := LineStyle(o2, ds);
    ColorFields(ds, color);
    LineStyleFields(o2, ds);
    AxisDefaultFields(o3, mixed);
  }

  /** In a mixed chart `yAxisID` is kept when present and is `y` otherwise; the dual-axis chart leaves it alone. */
  lemma DecoratedAxis(ds: Fields, idx: nat, mixed: bool)
    ensures var d := Decorated(ds, idx, mixed);
      && (mixed ==> Get(d, "yAxisID") == if Has(ds, "yAxisID") then Get(ds, "yAxisID") else Some(JStr("y")))
      && (!mixed ==> Get(d, "yAxisID") == Get(ds, "yAxisID"))
  {
    var color := JStr(Colors[idx % |Colors|]);
    var o2 := Set(Set(ds, "backgroundColor", color), "borderColor", color);
    var o3 := LineStyle(o2, ds);
    ColorFields(ds, color);
    LineStyleFields(o2, ds);
    AxisDefaultFields(o3, mixed);
    assert Get(o3, "yAxisID") == Get(ds, "yAxisID");
    assert Has(o3, "yAxisID") <==> Has(ds, "yAxisID");
  }

  /** Every key the decoration does not write keeps its value, and the original keys keep their order, before any new one. */
  lemma DecoratedKeepsRest(ds: Fields, idx: nat, mixed: bool)
    ensures var d := Decorated(ds, idx, mixed);
      && (forall k :: k !in StyleKeys ==> Get(d, k) == Get(ds, k))
      && Keys(ds) <= Keys(d)
  {
    var color := JStr(Colors[idx % |Colors|]);
    var o2 := Set(Set(ds, "backgroundColor", color), "borderColor", color);
    var o3 := LineStyle(o2, ds);
    var d := AxisDefault(o3, mixed);
    forall k | k !in StyleKeys
      ensures Get(d, k) == Get(ds, k)
    {
      DecoratedAtKey(ds, idx, mixed, k);
    }
    DecoratedKeys(ds, idx, mixed);
  }

  lemma DecoratedAtKey(ds: Fields, idx: nat, mixed: bool, k: string)
    requires k !in StyleKeys
    ensures Get(Decorated(ds, idx, mixed), k) == Get(ds, k)
  {
    var color := JStr(Colors[idx % |Colors|]);
    var o2 := Set(Set(ds, "backgroundColor", color), "borderColor", color);
    var o3 := LineStyle(o2, ds);
    assert k != "backgroundColor" && k != "borderColor" && k != "fill" && k != "tension" && k != "yAxisID";
    ColorFields(ds, color);
    LineStyleFields(o2, ds);
    AxisDefaultFields(o3, mixed);
  }

  lemma DecoratedKeys(ds: Fields, idx: nat, mixed: bool)
    ensures Keys(ds) <= Keys(Decorated(ds, idx, mixed))
  {
    var color := JStr(Colors[idx % |Colors|]);
    var o2 := Set(Set(ds, "backgroundColor", color), "borderColor", color);
    var o3 := LineStyle(o2, ds);
    ColorFields(ds, color);
    LineStyleFields(o2, ds);
    AxisDefaultFields(o3, mixed);
  }

  /** A dataset that already has the mixed chart's default keeps being decorated the same way: the default is never applied twice. */
  lemma DecoratedStable(ds: Fields, idx: nat)
    requires Has(ds, "yAxisID")
    ensures Get(Decorated(ds, idx, true), "yAxisID") == Get(ds, "yAxisID")
  {
    DecoratedAxis(ds, idx, true);
  }

  // ---------------------------------------------------------------------------
  // The y axes of the dual-axis chart
  // ---------------------------------------------------------------------------

  /** The scale configuration of one axis: the axis `y1` is on the left and draws its grid, every other axis is on the right. */
  function AxisConfig(id: string, axisTitle: Json): Json {
    JObj([
      ("type", JStr("linear")),
      ("position", JStr(if id == "y1" then "left" else "right")),
      ("title", JObj([("display", JBool(true)), ("text", axisTitle)])),
      ("beginAtZero", JBool(true)),
      ("grid", JObj([("drawOnChartArea", JBool(id == "y1"))]))
    ])
  }

  /** Each axis (id, label) as the entry the loop assigns. */
  function AxisEntries(axes: seq<(string, Json)>): (es: Fields)
    ensures |es| == |axes|
  {
    seq(|axes|, i requires 0 <= i < |axes| => (axes[i].0, AxisConfig(axes[i].0, axes[i].1)))
  }

  /** The scales object after the first `n` axes. */
  function YAxesUpTo(axes: seq<(string, Json)>, n: nat): Fields
    requires n <= |axes|
  {
    AssignAll(AxisEntries(axes), n)
  }

  /** The loop filling `js_y_axes`. */
  method BuildYAxes(axes: seq<(string, Json)>) returns (scales: Fields)
    ensures scales == YAxesUpTo(axes, |axes|)
  {
    ghost var es := AxisEntries(axes);
    scales := [];
    for i := 0 to |axes|
      invariant scales == AssignAll(es, i)
    {
      var id := axes[i].0;
      var config := AxisConfig(id, axes[i].1);
      assert es[i] == (id, config);
      scales := Set(scales, id, config);
    }
  }

  /** `position` is `left`, and `drawOnChartArea` is true, exactly for the axis `y1`. */
  lemma AxisSides(id: string, axisTitle: Json)
    ensures var c := AxisConfig(id, axisTitle).fields;
      && (Get(c, "position") == Some(JStr("left")) <==> id == "y1")
      && (Get(c, "position") == Some(JStr("right")) <==> id != "y1")
      && (Get(c, "grid") == Some(JObj([("drawOnChartArea", JBool(true))])) <==> id == "y1")
  {
    var c := AxisConfig(id, axisTitle).fields;
    assert c[0].0 != "grid" && c[1].0 != "grid" && c[2].0 != "grid" && c[3].0 != "grid" && c[4].0 == "grid";
    assert Get(c[4..], "grid") == Some(c[4].1);
    assert Get(c[3..], "grid") == Some(c[4].1) by { assert c[3..][1..] == c[4..]; }
    assert Get(c[2..], "grid") == Some(c[4].1) by { assert c[2..][1..] == c[3..]; }
    assert Get(c[1..], "grid") == Some(c[4].1) by { assert c[1..][1..] == c[2..]; }
  }

  /**
    The scales object has one entry per distinct id, present exactly when
    some axis has that id, holding the configuration of the last axis with
    that id: a later duplicate overwrites an earlier one.
  */
  lemma YAxesLastWins(axes: seq<(string, Json)>, j: nat, id: string)
    requires j < |axes|
    requires forall l :: j < l < |axes| ==> axes[l].0 != axes[j].0
    ensures UniqueKeys(YAxesUpTo(axes, |axes|))
    ensures (forall i :: 0 <= i < |axes| ==> axes[i].0 != id) ==> Get(YAxesUpTo(axes, |axes|), id) == None
    ensures Get(YAxesUpTo(axes, |axes|), axes[j].0) == Some(AxisConfig(axes[j].0, axes[j].1))
  {
    var es := AxisEntries(axes);
    AssignAllUnique(es, |axes|);
    assert forall i :: 0 <= i < |axes| ==> es[i].0 == axes[i].0;
    if forall i :: 0 <= i < |axes| ==> axes[i].0 != id {
      assert es[..|axes|] == es;
      assert forall e :: e in es ==> e.0 != id;
      AssignAllAbsent(es, |axes|, id);
    }
    AssignAllLastWins(es, |axes|, j);
  }

  // ---------------------------------------------------------------------------
  // The whole request
  // ---------------------------------------------------------------------------

  /**
    What each chart type is built from: the page title, the y-axis label of
    the single-axis charts, the x values as given and, by type, the button
    group and y values, or the decorated datasets and the scales.
  */
  datatype ChartPlan =
    | Basic(title: Json, yLabel: Json, xValues: Json, yValues: Json, buttons: string)
    | Mixed(title: Json, yLabel: Json, xValues: Json, datasets: seq<Fields>)
    | DualAxis(title: Json, xValues: Json, datasets: seq<Fields>, scales: Fields)

  /** `data.get(key, default)`. */
  function GetDefault(fs: Fields, key: string, default: Json): Json {
    Get(fs, key).GetOr(default)
  }

  /** The datasets as a list of objects, if they are one. */
  function ObjectList(v: Json): Option<seq<Fields>> {
    if v.JArr? && forall i :: 0 <= i < |v.items| ==> v.items[i].JObj? then
      Some(seq(|v.items|, i requires 0 <= i < |v.items| => v.items[i].fields))
    else None
  }

  predicate AxisEntry(v: Json) {
    v.JObj? && Get(v.fields, "id").Some? && Get(v.fields, "id").value.JStr? && Get(v.fields, "label").Some?
  }

  /** A `y_axes` value that `for y in y_axes` iterates zero times: an empty list, dict or string. */
  predicate NoAxes(v: Json) {
    v == JArr([]) || v == JObj([]) || v == JStr("")
  }

  /**
    The y axes as (id, label) pairs: none for an empty dict or string, one per
    element of a list whose elements are objects with a string `id` and a
    `label`. Any other value makes the loop raise: a non-empty dict or string
    yields strings, which `y['id']` cannot index, and a number, boolean or
    null is not iterable.
  */
  function AxisList(v: Json): Option<seq<(string, Json)>> {
    if v == JObj([]) || v == JStr("") then Some([])
    else if v.JArr? && forall i :: 0 <= i < |v.items| ==> AxisEntry(v.items[i]) then
      Some(seq(|v.items|, i requires 0 <= i < |v.items| => (Get(v.items[i].fields, "id").value.s, Get(v.items[i].fields, "label").value)))
    else None
  }

  /** The chart a validated request is built into, or the generation error. */
  function PlanSpec(fs: Fields): Result<ChartPlan, ChartError>
    requires WellFormed(fs)
  {
    var ct := ChartTypeOf(fs);
    var title := GetDefault(fs, "title", JStr(""));
    var xs := Get(fs, "x_values").value;
    if ct in BasicTypes then
      Success(Basic(title, GetDefault(fs, "y_label", JStr("")), xs, Get(fs, "y_values").value, ButtonGroupHtml(ct)))
    else
      var dss := ObjectList(Get(fs, "datasets").value);
      if dss.None? then Failure(GenerationFailed)
      else if ct == "mixed" then
        Success(Mixed(title, GetDefault(fs, "y_label", JStr("값")), xs, DecoratedUpTo(dss.value, |dss.value|, true)))
      else
        var axes := AxisList(Get(fs, "y_axes").value);
        if axes.None? then Failure(GenerationFailed)
        else Success(DualAxis(title, xs, DecoratedUpTo(dss.value, |dss.value|, false), YAxesUpTo(axes.value, |axes.value|)))
  }

  function ChartSpec(input: ToolInput, codec: Codec): Result<ChartPlan, ChartError> {
    match Validate(input, codec)
    case Failure(e) => Failure(e)
    case Success(fs) =>
      ValidWellFormed(input, codec);
      PlanSpec(fs)
  }

  /** Data that passes validation is well formed. */
  lemma ValidWellFormed(input: ToolInput, codec: Codec)
    requires Validate(input, codec).Success?
    ensures WellFormed(Validate(input, codec).value)
  {
    var data := InputData(input, codec).value;
    ValidateDict(data.fields, codec);
  }

  /**
    The chart built matches the requested type: the basic types get the
    button group with their own button active, and a missing title or y
    label takes its default (empty, or `값` for the mixed chart); every
    validation error is returned as such, and the only later error is a
    generation failure of a mixed or dual-axis chart.
  */
  lemma ChartMatchesType(input: ToolInput, codec: Codec)
    ensures Validate(input, codec).Failure? ==> ChartSpec(input, codec) == Failure(Validate(input, codec).error)
    ensures Validate(input, codec).Success? ==>
      var fs := Validate(input, codec).value;
      && WellFormed(fs)
      && (ChartSpec(input, codec).Failure? ==> ChartSpec(input, codec).error == GenerationFailed && ChartTypeOf(fs) !in BasicTypes)
      && (ChartSpec(input, codec).Success? ==>
            var plan := ChartSpec(input, codec).value;
            && (plan.Basic? <==> ChartTypeOf(fs) in BasicTypes)
            && (plan.Mixed? <==> ChartTypeOf(fs) == "mixed")
            && (plan.DualAxis? <==> ChartTypeOf(fs) == "dual_axis")
            && plan.title == (if Has(fs, "title") then Get(fs, "title").value else JStr(""))
            && (plan.Basic? ==> plan.yLabel == (if Has(fs, "y_label") then Get(fs, "y_label").value else JStr("")))
            && (plan.Mixed? ==> plan.yLabel == (if Has(fs, "y_label") then Get(fs, "y_label").value else JStr("값")))
            && (plan.Basic? ==> plan.buttons == ButtonGroupHtml(ChartTypeOf(fs))))
    ensures Validate(input, codec).Success? ==>
      var fs := Validate(input, codec).value;
      ChartTypeOf(fs) == "dual_axis" && ObjectList(Get(fs, "datasets").value).Some? && NoAxes(Get(fs, "y_axes").value) ==>
        ChartSpec(input, codec).Success? && ChartSpec(input, codec).value.DualAxis? && ChartSpec(input, codec).value.scales == []
  {
    if Validate(input, codec).Success? {
      ValidWellFormed(input, codec);
    }
  }

  /** The tool: validate, then build the chart the request's type calls for. */
  method GenerateChart(input: ToolInput, codec: Codec) returns (r: Result<ChartPlan, ChartError>)
    ensures r == ChartSpec(input, codec)
  {
    var v := Validate(input, codec);
    if v.Failure? {
      return Failure(v.error);
    }
    var fs := v.value;
    ValidWellFormed(input, codec);
    var ct := ChartTypeOf(fs);
    var title := GetDefault(fs, "title", JStr(""));
    var xs := Get(fs, "x_values").value;
    if ct in BasicTypes {
      var buttons := ButtonGroup(ct);
      return Success(Basic(title, GetDefault(fs, "y_label", JStr("")), xs, Get(fs, "y_values").value, buttons));
    }
    var dss := ObjectList(Get(fs, "datasets").value);
    if dss.None? {
      return Failure(GenerationFailed);
    }
    if ct == "mixed" {
      var decorated := DecorateDatasets(dss.value, true);
      return Success(Mixed(title, GetDefault(fs, "y_label", JStr("값")), xs, decorated));
    }
    var axes := AxisList(Get(fs, "y_axes").value);
    if axes.None? {
      return Failure(GenerationFailed);
    }
    var decorated := DecorateDatasets(dss.value, false);
    var scales := BuildYAxes(axes.value);
    return Success(DualAxis(title, xs, decorated, scales));
  }
}
