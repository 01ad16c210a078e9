/**
  JSON values as the Python and JavaScript code sees them after parsing.
  An object keeps its keys in insertion order: assigning an existing key
  keeps its place, assigning a new key appends it. A Python `dict` behaves
  so for every key; a JavaScript object does only for keys that are not
  array indices, and lists integer-like keys such as `"2023"` first, in
  ascending order, whatever the order of assignment.
  Parsing and serialising text are not modelled: they are an abstract `Codec`.
*/
module Json {
  import opened Wrappers

  datatype Json =
    | JNull
    | JBool(b: bool)
    | JNum(n: real)
    | JStr(s: string)
    | JArr(items: seq<Json>)
    | JObj(fields: seq<(string, Json)>)

  type Fields = seq<(string, Json)>

  function Keys(fields: Fields): (ks: seq<string>)
    ensures |ks| == |fields| && forall i :: 0 <= i < |fields| ==> ks[i] == fields[i].0
  {
    seq(|fields|, i requires 0 <= i < |fields| => fields[i].0)
  }

  predicate Distinct<T(==)>(s: seq<T>) {
    forall i, j :: 0 <= i < j < |s| ==> s[i] != s[j]
  }

  predicate UniqueKeys(fields: Fields) {
    Distinct(Keys(fields))
  }

  /** Property lookup: the value stored under `key`, if any. */
  function Get(fields: Fields, key: string): (r: Option<Json>)
    ensures r.None? <==> key !in Keys(fields)
    decreases |fields|
  {
    if fields == [] then None
    else if fields[0].0 == key then Some(fields[0].1)
    else Get(fields[1..], key)
  }

  lemma GetAt(fields: Fields, i: nat)
    requires UniqueKeys(fields) && i < |fields|
    ensures Get(fields, fields[i].0) == Some(fields[i].1)
  {
    if i > 0 {
      assert UniqueKeys(fields[1..]);
      GetAt(fields[1..], i - 1);
    }
  }

  /**
    Assignment `obj[key] = v`: an existing key is overwritten in place, a new
    key is appended; no other entry changes. The effect on the key order is
    `SetKeys`.
  */
  function Set(fields: Fields, key: string, v: Json): (r: Fields)
    ensures Get(r, key) == Some(v)
    ensures forall k :: k != key ==> Get(r, k) == Get(fields, k)
    decreases |fields|
  {
    if fields == [] then [(key, v)]
    else if fields[0].0 == key then [(key, v)] + fields[1..]
    else [fields[0]] + Set(fields[1..], key, v)
  }

  lemma SetOther(fields: Fields, key: string, v: Json, other: string)
    requires other != key
    ensures Get(Set(fields, key, v), other) == Get(fields, other)
  {
  }

  /** The keys after an assignment: the same keys in the same order, or the new key last; distinct keys stay distinct. */
  lemma {:induction false} SetKeys(fields: Fields, key: string, v: Json)
    ensures Keys(Set(fields, key, v)) == if key in Keys(fields) then Keys(fields) else Keys(fields) + [key]
    ensures UniqueKeys(fields) ==> UniqueKeys(Set(fields, key, v))
    decreases |fields|
  {
    var r := Set(fields, key, v);
    if fields == [] {
    } else if fields[0].0 == key {
      assert r[1..] == fields[1..];
      KeysCons(fields);
      KeysCons(r);
    } else {
      var rest := Set(fields[1..], key, v);
      SetKeys(fields[1..], key, v);
      assert r == [fields[0]] + rest;
      assert r[1..] == rest;
      SetFurtherKeys(fields, key, rest);
      if UniqueKeys(fields) {
        KeysCons(fields);
        KeysCons(r);
        DistinctCons(Keys(fields));
        if key !in Keys(fields) {
          DistinctSnoc(Keys(fields), key);
        }
      }
    }
  }

  lemma SetUnique(fields: Fields, key: string, v: Json)
    requires UniqueKeys(fields)
    ensures UniqueKeys(Set(fields, key, v))
  {
    SetKeys(fields, key, v);
  }

  lemma SetFurtherKeys(fields: Fields, key: string, rest: Fields)
    requires fields != [] && fields[0].0 != key
    requires Keys(rest) == if key in Keys(fields[1..]) then Keys(fields[1..]) else Keys(fields[1..]) + [key]
    ensures Keys([fields[0]] + rest) == (if key in Keys(fields) then Keys(fields) else Keys(fields) + [key])
  {
    var r := [fields[0]] + rest;
    assert r[1..] == rest;
    KeysCons(fields);
    KeysCons(r);
    if key !in Keys(fields) {
      assert Keys(fields) + [key] == [fields[0].0] + (Keys(fields[1..]) + [key]);
    }
  }

  /** The assignments `obj[key] = value` of the first `n` entries, in order, starting from an empty object. */
  function AssignAll(entries: Fields, n: nat): Fields
    requires n <= |entries|
  {
    if n == 0 then [] else Set(AssignAll(entries, n - 1), entries[n - 1].0, entries[n - 1].1)
  }

  /** Assigning in a loop never stores a key twice. */
  lemma {:induction false} AssignAllUnique(entries: Fields, n: nat)
    requires n <= |entries|
    ensures UniqueKeys(AssignAll(entries, n))
  {
    if n > 0 {
      AssignAllUnique(entries, n - 1);
      SetUnique(AssignAll(entries, n - 1), entries[n - 1].0, entries[n - 1].1);
    }
  }

  /** A key no entry assigns is absent. */
  lemma {:induction false} AssignAllAbsent(entries: Fields, n: nat, key: string)
    requires n <= |entries|
    requires forall e :: e in entries[..n] ==> e.0 != key
    ensures Get(AssignAll(entries, n), key) == None
  {
    if n > 0 {
      assert entries[..n - 1] <= entries[..n];
      assert entries[n - 1] in entries[..n];
      AssignAllAbsent(entries, n - 1, key);
      SetOther(AssignAll(entries, n - 1), entries[n - 1].0, entries[n - 1].1, key);
    }
  }

  /** A key holds the value of the last entry that assigns it. */
  lemma {:induction false} AssignAllLastWins(entries: Fields, n: nat, j: nat)
    requires j < n <= |entries|
    requires forall l :: j < l < n ==> entries[l].0 != entries[j].0
    ensures Get(AssignAll(entries, n), entries[j].0) == Some(entries[j].1)
  {
    if j < n - 1 {
      AssignAllLastWins(entries, n - 1, j);
    }
  }

  /** When every entry's value is a function of its key, each assigned key holds that value. */
  lemma {:induction false} AssignAllAgreeing(entries: Fields, n: nat, j: nat, value: string -> Json)
    requires j < n <= |entries|
    requires forall a :: 0 <= a < n ==> entries[a].1 == value(entries[a].0)
    ensures Get(AssignAll(entries, n), entries[j].0) == Some(value(entries[j].0))
  {
    var prev := AssignAll(entries, n - 1);
    var k, v := entries[n - 1].0, entries[n - 1].1;
    assert AssignAll(entries, n) == Set(prev, k, v);
    if k != entries[j].0 {
      AssignAllAgreeing(entries, n - 1, j, value);
      SetOther(prev, k, v, entries[j].0);
    } else {
      assert v == value(k);
      assert Get(Set(prev, k, v), k) == Some(v);
    }
  }

  lemma DistinctCons<T>(s: seq<T>)
    requires s != [] && Distinct(s)
    ensures Distinct(s[1..])
  {
  }

  lemma KeysCons(fields: Fields)
    requires fields != []
    ensures Keys(fields) == [fields[0].0] + Keys(fields[1..])
  {
  }

  lemma DistinctSnoc<T>(s: seq<T>, x: T)
    requires Distinct(s) && x !in s
    ensures Distinct(s + [x])
  {
  }

  /** JavaScript falsiness; `None` is `undefined`. */
  predicate JsFalsy(v: Option<Json>) {
    match v
    case None => true
    case Some(j) => j == JNull || j == JBool(false) || j == JNum(0.0) || j == JStr("")
  }

  /** Python truth value testing: `not v`. */
  predicate PyFalsy(v: Json) {
    v == JNull || v == JBool(false) || v == JNum(0.0) || v == JStr("") || v == JArr([]) || v == JObj([])
  }

  /**
    The JSON text codec of the runtime: `parse` is `JSON.parse`/`json.loads`
    (None on a syntax error) and `stringify` is `JSON.stringify`/`json.dumps`.
  */
  datatype Codec = Codec(parse: string -> Option<Json>, stringify: Json -> string)
}
