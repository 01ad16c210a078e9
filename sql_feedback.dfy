/**
  The SQL feedback node: attach the latest SQL feedback to the most recent
  entry of the SQL history and hand the history back as JSON text.
*/
module SqlFeedback {
  import opened Wrappers
  import opened Json

  const FeedbackKey := "sql_feedback"

  /**
    The history as an array: `$SQL_HISTORY` parsed when it is present and
    non-empty, and the empty array when it is absent, empty, not JSON or
    not an array.
  */
  function ParseHistory(sqlHistory: Option<string>, codec: Codec): seq<Json> {
    if sqlHistory.None? || sqlHistory.value == "" then []
    else
      match codec.parse(sqlHistory.value)
      case Some(JArr(items)) => items
      case _ => []
  }

  /**
    `entry.sql_feedback = feedback`: an object gets the key set, `null`
    throws (`None`), and on any other value the assignment leaves nothing
    that `JSON.stringify` shows.
  */
  function WithFeedback(entry: Json, feedback: Json): Option<Json> {
    match entry
    case JObj(fields) => Some(JObj(Set(fields, FeedbackKey, feedback)))
    case JNull => None
    case _ => Some(entry)
  }

  /** The history after the update, or `None` when the assignment throws. */
  function Updated(history: seq<Json>, feedback: Json): Option<seq<Json>> {
    if |history| > 0 then
      match WithFeedback(history[|history| - 1], feedback)
      case Some(last) => Some(history[..|history| - 1] + [last])
      case None => None
    else Some([JObj([(FeedbackKey, feedback)])])
  }

  /** The node's output: the updated history as JSON text, `None` when the node throws. */
  function FeedbackSpec(sqlHistory: Option<string>, feedback: Json, codec: Codec): Option<string> {
    var updated := Updated(ParseHistory(sqlHistory, codec), feedback);
    if updated.Some? then Some(codec.stringify(JArr(updated.value))) else None
  }

  method UpdateSqlFeedback(sqlHistory: Option<string>, feedback: Json, codec: Codec) returns (output: Option<string>)
    ensures output == FeedbackSpec(sqlHistory, feedback, codec)
  {
    var history: seq<Json> := [];
    if sqlHistory.Some? && sqlHistory.value != "" {
      var parsed := codec.parse(sqlHistory.value);
      if parsed.Some? && parsed.value.JArr? {
        history := parsed.value.items;
      }
    }
    ghost var parsed := history;
    assert parsed == ParseHistory(sqlHistory, codec);
    if |history| > 0 {
      var last := history[|history| - 1];
      if last.JNull? {
        return None;
      }
      if last.JObj? {
        history := history[|history| - 1 := JObj(Set(last.fields, FeedbackKey, feedback))];
        assert history == parsed[..|parsed| - 1] + [JObj(Set(last.fields, FeedbackKey, feedback))];
      } else {
        assert history == parsed[..|parsed| - 1] + [last];
      }
    } else {
      history := history + [JObj([(FeedbackKey, feedback)])];
      assert history == [JObj([(FeedbackKey, feedback)])];
    }
    assert Updated(parsed, feedback) == Some(history);
    return Some(codec.stringify(JArr(history)));
  }

  // ---------------------------------------------------------------------------
  // Properties
  // ---------------------------------------------------------------------------

  /** A history that is absent, empty, not JSON or not an array counts as the empty array. */
  lemma EmptyHistoryCases(sqlHistory: Option<string>, codec: Codec)
    ensures ParseHistory(sqlHistory, codec) != [] ==>
      sqlHistory.Some? && codec.parse(sqlHistory.value).Some? && codec.parse(sqlHistory.value).value.JArr? &&
      ParseHistory(sqlHistory, codec) == codec.parse(sqlHistory.value).value.items
    ensures sqlHistory.None? || sqlHistory == Some("") ==> ParseHistory(sqlHistory, codec) == []
    ensures sqlHistory.Some? && (codec.parse(sqlHistory.value).None? || !codec.parse(sqlHistory.value).value.JArr?) ==>
      ParseHistory(sqlHistory, codec) == []
  {
  }

  /**
    The update keeps every entry but the last; it has `max(1, n)` entries;
    an empty history becomes the single entry `{sql_feedback}`.
  */
  lemma UpdatedShape(history: seq<Json>, feedback: Json)
    requires Updated(history, feedback).Some?
    ensures var u := Updated(history, feedback).value;
      |u| == (if |history| == 0 then 1 else |history|) &&
      (forall i :: 0 <= i < |history| - 1 ==> u[i] == history[i]) &&
      (history == [] ==> u == [JObj([(FeedbackKey, feedback)])])
  {
  }

  /**
    In a non-empty history the last entry, when it is an object, gets
    `sql_feedback` set to the feedback and keeps every other key; when it
    is `null` the node throws; any other value is left as it is.
  */
  lemma UpdatedLast(history: seq<Json>, feedback: Json)
    requires history != []
    ensures var last := history[|history| - 1];
      Updated(history, feedback).None? <==> last.JNull?
    ensures var last := history[|history| - 1];
      last.JObj? ==>
        var u := Updated(history, feedback).value;
        u[|u| - 1].JObj? && Get(u[|u| - 1].fields, FeedbackKey) == Some(feedback) &&
        forall k :: k != FeedbackKey ==> Get(u[|u| - 1].fields, k) == Get(last.fields, k)
    ensures var last := history[|history| - 1];
      !last.JObj? && !last.JNull? ==> Updated(history, feedback) == Some(history)
  {
    var last := history[|history| - 1];
    if !last.JObj? && !last.JNull? {
      assert history[..|history| - 1] + [last] == history;
    }
  }

  /** Feedback written twice leaves only the second. */
  lemma UpdatedTwice(history: seq<Json>, first: Json, second: Json)
    requires history != [] && history[|history| - 1].JObj?
    ensures var once := Updated(history, first).value;
      Updated(once, second) == Updated(history, second)
  {
    var last := history[|history| - 1];
    var once := Updated(history, first).value;
    assert once[..|once| - 1] == history[..|history| - 1];
    SetTwice(last.fields, FeedbackKey, first, second);
  }

  /** Assigning a key twice is assigning it once, with the second value. */
  lemma {:induction false} SetTwice(fields: Fields, key: string, v: Json, w: Json)
    ensures Set(Set(fields, key, v), key, w) == Set(fields, key, w)
    decreases |fields|
  {
    if fields != [] && fields[0].0 != key {
      SetTwice(fields[1..], key, v, w);
      assert Set(fields, key, v)[1..] == Set(fields[1..], key, v);
    }
  }
}
