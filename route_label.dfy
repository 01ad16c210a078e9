/**
  The route-label normaliser: a routing label arrives as text, maybe JSON
  text, maybe with quotes, spaces or stray characters around it, and is
  mapped to one of the three routes "DA", "CANNOT_DA" and "GENERAL".
*/
module RouteLabel {
  import opened Wrappers
  import opened Json
  import Text

  const DA := "DA"
  const CannotDA := "CANNOT_DA"
  const General := "GENERAL"

  /** The keys of an object tried, in this order, for a string label. */
  const Candidates := ["label", "value", "type", "name", "route"]

  predicate IsString(v: Option<Json>) {
    v.Some? && v.value.JStr?
  }

  // ---------------------------------------------------------------------------
  // extractString
  // ---------------------------------------------------------------------------

  /** The first of `keys` whose value in the object is a string, and that string. */
  function FirstString(fields: Fields, keys: seq<string>): Option<string>
    decreases |keys|
  {
    if keys == [] then None
    else if IsString(Get(fields, keys[0])) then Some(Get(fields, keys[0]).value.s)
    else FirstString(fields, keys[1..])
  }

  /**
    `FirstString` finds a string-valued key exactly when there is one, and
    then it is the earliest such key.
  */
  lemma {:induction false} FirstStringSpec(fields: Fields, keys: seq<string>)
    ensures FirstString(fields, keys).None? <==> forall j :: 0 <= j < |keys| ==> !IsString(Get(fields, keys[j]))
    ensures FirstString(fields, keys).Some? ==>
      exists j :: (0 <= j < |keys| && Get(fields, keys[j]) == Some(JStr(FirstString(fields, keys).value)) &&
        forall i :: 0 <= i < j ==> !IsString(Get(fields, keys[i])))
    decreases |keys|
  {
    if keys != [] && !IsString(Get(fields, keys[0])) {
      FirstStringSpec(fields, keys[1..]);
      if FirstString(fields, keys[1..]).Some? {
        var j :| 0 <= j < |keys| - 1 && Get(fields, keys[1..][j]) == Some(JStr(FirstString(fields, keys[1..]).value)) &&
          forall i :: 0 <= i < j ==> !IsString(Get(fields, keys[1..][i]));
        assert Get(fields, keys[j + 1]) == Some(JStr(FirstString(fields, keys).value));
        forall i | 0 <= i < j + 1 ensures !IsString(Get(fields, keys[i])) {
          if i > 0 {
            assert keys[i] == keys[1..][i - 1];
          }
        }
      } else {
        forall j | 0 <= j < |keys| ensures !IsString(Get(fields, keys[j])) {
          if j > 0 {
            assert keys[j] == keys[1..][j - 1];
          }
        }
      }
    }
  }

  /**
    `extractString`: a string as it is; an object's first string-valued
    candidate key, or else the object's JSON text; `null` gives the empty
    string; any other value its text (`String` of a number or a boolean is
    its JSON text).
  */
  function ExtractString(v: Json, codec: Codec): string {
    match v
    case JStr(s) => s
    case JNull => ""
    case JObj(fields) =>
      var found := FirstString(fields, Candidates);
      if found.Some? then found.value else codec.stringify(v)
    case _ => codec.stringify(v)
  }

  /** The label text: `$type` parsed as JSON when it parses, else `$type` itself. */
  function RawLabel(t: string, codec: Codec): string {
    match codec.parse(t)
    case Some(v) => ExtractString(v, codec)
    case None => t
  }

  // ---------------------------------------------------------------------------
  // Normalisation
  // ---------------------------------------------------------------------------

  predicate IsQuote(c: char) {
    c == '"' || c == '\'' || c == '`'
  }

  /** The characters a normalised label may contain. */
  predicate IsRouteChar(c: char) {
    'A' <= c <= 'Z' || c == '_' || c == '-'
  }

  /** `replace(/["'`]/g, '')`. */
  function WithoutQuotes(s: string): (r: string)
    ensures forall i :: 0 <= i < |r| ==> !IsQuote(r[i])
    decreases |s|
  {
    if s == [] then []
    else (if IsQuote(s[0]) then [] else [s[0]]) + WithoutQuotes(s[1..])
  }

  /** `replace(/[^A-Z_-]/g, '')`. */
  function RouteChars(s: string): (r: string)
    ensures |r| <= |s|
    ensures forall i :: 0 <= i < |r| ==> IsRouteChar(r[i])
    decreases |s|
  {
    if s == [] then []
    else (if IsRouteChar(s[0]) then [s[0]] else []) + RouteChars(s[1..])
  }

  /** The normalised label: trimmed, upper-cased, quotes removed, then only A-Z, `_` and `-` kept. */
  function Norm(raw: string): string {
    RouteChars(WithoutQuotes(Text.Upper(Text.Trim(raw))))
  }

  /** The final mapping; anything else falls back to the general route. */
  function Route(norm: string): (out: string)
    ensures out == DA <==> norm == DA
    ensures out == CannotDA <==> norm == CannotDA
    ensures out == General <==> norm != DA && norm != CannotDA
  {
    if norm == DA then DA
    else if norm == CannotDA then CannotDA
    else General
  }

  /** The whole node: the route for the incoming `$type` text. */
  function NormalizeRoute(t: string, codec: Codec): (out: string)
    ensures out == DA || out == CannotDA || out == General
  {
    Route(Norm(RawLabel(t, codec)))
  }

  // ---------------------------------------------------------------------------
  // Properties
  // ---------------------------------------------------------------------------

  lemma {:induction false} RouteCharsAppend(a: string, b: string)
    ensures RouteChars(a + b) == RouteChars(a) + RouteChars(b)
    decreases |a|
  {
    if a != [] {
      var h := if IsRouteChar(a[0]) then [a[0]] else [];
      assert (a + b)[0] == a[0];
      assert (a + b)[1..] == a[1..] + b;
      RouteCharsAppend(a[1..], b);
      assert RouteChars(a + b) == h + (RouteChars(a[1..]) + RouteChars(b));
      assert RouteChars(a) == h + RouteChars(a[1..]);
    } else {
      assert a + b == b;
    }
  }

  /** Quotes are never route characters, so removing them first changes nothing. */
  lemma {:induction false} RouteCharsQuotes(s: string)
    ensures RouteChars(WithoutQuotes(s)) == RouteChars(s)
    decreases |s|
  {
    if s != [] {
      RouteCharsQuotes(s[1..]);
      RouteCharsAppend(if IsQuote(s[0]) then [] else [s[0]], WithoutQuotes(s[1..]));
    }
  }

  /** A string made of route characters only is kept whole. */
  lemma {:induction false} RouteCharsKeep(s: string)
    requires forall i :: 0 <= i < |s| ==> IsRouteChar(s[i])
    ensures RouteChars(s) == s
    decreases |s|
  {
    if s != [] {
      RouteCharsKeep(s[1..]);
    }
  }

  /** Upper-casing white space leaves no route character. */
  lemma {:induction false} RouteCharsUpperSpaces(s: string)
    requires forall i :: 0 <= i < |s| ==> Text.IsJsSpace(s[i])
    ensures RouteChars(Text.Upper(s)) == []
    decreases |s|
  {
    if s != [] {
      RouteCharsUpperSpaces(s[1..]);
      assert Text.Upper(s) == [Text.UpperChar(s[0])] + Text.Upper(s[1..]);
      RouteCharsAppend([Text.UpperChar(s[0])], Text.Upper(s[1..]));
    }
  }

  lemma UpperAppend(a: string, b: string)
    ensures Text.Upper(a + b) == Text.Upper(a) + Text.Upper(b)
  {
  }

  /**
    Normalising keeps exactly the route characters of the upper-cased label,
    in order: white space, quotes, digits and every other character are
    dropped wherever they stand.
  */
  lemma NormIsRouteCharsOfUpper(raw: string)
    ensures Norm(raw) == RouteChars(Text.Upper(raw))
  {
    Text.TrimSplit(raw);
    var a, b :| 0 <= a <= b <= |raw| && Text.Trim(raw) == raw[a..b]
      && (forall i :: 0 <= i < a ==> Text.IsJsSpace(raw[i])) && (forall i :: b <= i < |raw| ==> Text.IsJsSpace(raw[i]));
    RouteCharsQuotes(Text.Upper(raw[a..b]));
    SplitThree(raw, a, b);
    RouteCharsAround(raw[..a], raw[a..b], raw[b..]);
  }

  lemma SplitThree(s: string, a: nat, b: nat)
    requires a <= b <= |s|
    ensures s == s[..a] + s[a..b] + s[b..]
  {
  }

  /** White space around a label contributes no route character. */
  lemma RouteCharsAround(x: string, y: string, z: string)
    requires forall i :: 0 <= i < |x| ==> Text.IsJsSpace(x[i])
    requires forall i :: 0 <= i < |z| ==> Text.IsJsSpace(z[i])
    ensures RouteChars(Text.Upper(x + y + z)) == RouteChars(Text.Upper(y))
  {
    UpperAppend(x + y, z);
    UpperAppend(x, y);
    RouteCharsAppend(Text.Upper(x) + Text.Upper(y), Text.Upper(z));
    RouteCharsAppend(Text.Upper(x), Text.Upper(y));
    RouteCharsUpperSpaces(x);
    RouteCharsUpperSpaces(z);
  }

  /** A normalised label contains only A-Z, `_` and `-`. */
  lemma NormCharacters(raw: string)
    ensures forall i :: 0 <= i < |Norm(raw)| ==> IsRouteChar(Norm(raw)[i])
  {
  }

  /** A label already made of route characters is its own normal form. */
  lemma NormFixed(s: string)
    requires forall i :: 0 <= i < |s| ==> IsRouteChar(s[i])
    ensures Norm(s) == s
  {
    NormIsRouteCharsOfUpper(s);
    assert Text.Upper(s) == s;
    RouteCharsKeep(s);
  }

  /** The three route names are not JSON text, as `JSON.parse` rejects bare words. */
  predicate RejectsRouteNames(codec: Codec) {
    codec.parse(DA).None? && codec.parse(CannotDA).None? && codec.parse(General).None?
  }

  /** Normalising an output gives that output back. */
  lemma NormalizeIdempotent(t: string, codec: Codec)
    requires RejectsRouteNames(codec)
    ensures NormalizeRoute(NormalizeRoute(t, codec), codec) == NormalizeRoute(t, codec)
  {
    var out := NormalizeRoute(t, codec);
    assert RawLabel(out, codec) == out;
    NormFixed(out);
  }

  lemma RawLabelString(t: string, codec: Codec)
    requires codec.parse(t).Some? && codec.parse(t).value.JStr?
    ensures RawLabel(t, codec) == codec.parse(t).value.s
  {
  }

  lemma RawLabelObject(t: string, codec: Codec)
    requires codec.parse(t).Some? && codec.parse(t).value.JObj?
    ensures var found := FirstString(codec.parse(t).value.fields, Candidates);
      RawLabel(t, codec) == if found.Some? then found.value else codec.stringify(codec.parse(t).value)
  {
  }

  /** The route is decided by the route characters of the upper-cased label text. */
  lemma NormalizeByRaw(t: string, codec: Codec)
    ensures NormalizeRoute(t, codec) == Route(RouteChars(Text.Upper(RawLabel(t, codec))))
  {
    NormIsRouteCharsOfUpper(RawLabel(t, codec));
  }

  /** Text that is not JSON is routed by its own letters, case-insensitively. */
  lemma NormalizeText(t: string, codec: Codec)
    requires codec.parse(t).None?
    ensures NormalizeRoute(t, codec) == Route(RouteChars(Text.Upper(t)))
  {
    NormalizeByRaw(t, codec);
  }

  /** JSON text holding a string is routed by that string's letters. */
  lemma NormalizeString(t: string, codec: Codec)
    requires codec.parse(t).Some? && codec.parse(t).value.JStr?
    ensures NormalizeRoute(t, codec) == Route(RouteChars(Text.Upper(codec.parse(t).value.s)))
  {
    NormalizeByRaw(t, codec);
    RawLabelString(t, codec);
  }

  /** `null` takes the general route. */
  lemma NormalizeNull(t: string, codec: Codec)
    requires codec.parse(t) == Some(JNull)
    ensures NormalizeRoute(t, codec) == General
  {
  }

  /**
    A JSON object is routed by its first string-valued candidate key when it
    has one, and else by its JSON text.
  */
  lemma NormalizeObject(t: string, codec: Codec)
    requires codec.parse(t).Some? && codec.parse(t).value.JObj?
    ensures var found := FirstString(codec.parse(t).value.fields, Candidates);
      NormalizeRoute(t, codec) ==
        Route(RouteChars(Text.Upper(if found.Some? then found.value else codec.stringify(codec.parse(t).value))))
  {
    NormalizeByRaw(t, codec);
    RawLabelObject(t, codec);
  }

  /** `' "da" '`, JSON text of the string "da", is routed to "DA". */
  lemma QuotedDaExample(codec: Codec)
    requires codec.parse(" \"da\" ") == Some(JStr("da"))
    ensures NormalizeRoute(" \"da\" ", codec) == DA
  {
    NormalizeString(" \"da\" ", codec);
    LettersOfDa();
  }

  /** `'d1a'`, which is not JSON, is routed to "DA". */
  lemma DigitDaExample(codec: Codec)
    requires codec.parse("d1a").None?
    ensures NormalizeRoute("d1a", codec) == DA
  {
    NormalizeText("d1a", codec);
    LettersOfD1a();
  }

  lemma LettersOfDa()
    ensures RouteChars(Text.Upper("da")) == DA
  {
    var u := Text.Upper("da");
    assert u == "DA";
    RouteCharsKeep(u);
  }

  lemma LettersOfD1a()
    ensures RouteChars(Text.Upper("d1a")) == DA
  {
    var u := Text.Upper("d1a");
    assert u == "D1A";
    assert u == "D" + "1A";
    RouteCharsAppend("D", "1A");
    assert "1A" == "1" + "A";
    RouteCharsAppend("1", "A");
  }
}
