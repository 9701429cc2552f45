/**
 * Raw JSON values as both halves of the system see them once parsed: the
 * generator's records in the front end, and the conversation dump and loader
 * output in the back end. Objects keep their fields in document order, which is
 * the iteration order of a parsed Python `dict` and of a JavaScript object.
 */
module Json {
  import opened Common

  datatype Json =
    | JNull
    | JBool(b: bool)
    | JNumber(n: real)
    | JString(s: string)
    | JArray(items: seq<Json>)
    | JObject(fields: seq<(string, Json)>)

  /**
   * Value stored under `key`. With a repeated key the last occurrence wins, as in
   * `JSON.parse` and Python's `json.load`.
   */
  function Lookup(fields: seq<(string, Json)>, key: string): Option<Json>
  {
    if |fields| == 0 then None
    else if fields[|fields| - 1].0 == key then Some(fields[|fields| - 1].1)
    else Lookup(fields[..|fields| - 1], key)
  }

  /** A key is missing exactly when no field carries it. */
  lemma {:induction false} LookupNone(fields: seq<(string, Json)>, key: string)
    ensures Lookup(fields, key).None? <==> forall i :: 0 <= i < |fields| ==> fields[i].0 != key
  {
    if |fields| > 0 && fields[|fields| - 1].0 != key {
      var front := fields[..|fields| - 1];
      LookupNone(front, key);
      assert forall j :: 0 <= j < |front| ==> front[j] == fields[j];
    }
  }

  /** A found value is that of the last field carrying the key. */
  lemma {:induction false} LookupSome(fields: seq<(string, Json)>, key: string)
    requires Lookup(fields, key).Some?
    ensures exists i :: 0 <= i < |fields| && fields[i] == (key, Lookup(fields, key).value)
                        && forall j :: i < j < |fields| ==> fields[j].0 != key
  {
    if fields[|fields| - 1].0 != key {
      var front := fields[..|fields| - 1];
      LookupSome(front, key);
      assert forall j :: 0 <= j < |front| ==> front[j] == fields[j];
    }
  }

  /** `obj[key]` on an object, or nothing when `v` is not an object or lacks the key. */
  function Get(v: Json, key: string): Option<Json>
  {
    if v.JObject? then Lookup(v.fields, key) else None
  }

  /** Python's `o.get(key, default)` on a value already known to be a `dict`. */
  function GetOr(fields: seq<(string, Json)>, key: string, default: Json): Json
  {
    match Lookup(fields, key)
    case Some(v) => v
    case None => default
  }

  /** The distinct keys of an object in first-occurrence order: what iterating a parsed Python `dict` yields. */
  function Keys(fields: seq<(string, Json)>): (r: seq<string>)
    ensures forall i, j :: 0 <= i < j < |r| ==> r[i] != r[j]
    ensures forall k :: k in r <==> exists i :: 0 <= i < |fields| && fields[i].0 == k
  {
    if |fields| == 0 then []
    else
      var front := fields[..|fields| - 1];
      assert forall i :: 0 <= i < |front| ==> front[i] == fields[i];
      var ks := Keys(front);
      if fields[|fields| - 1].0 in ks then ks else ks + [fields[|fields| - 1].0]
  }

  /** `d.items()`: each distinct key once, in first-occurrence order, with the value of its last occurrence. */
  function Items(fields: seq<(string, Json)>): (r: seq<(string, Json)>)
    ensures |r| == |Keys(fields)|
    ensures forall i :: 0 <= i < |r| ==> r[i].0 == Keys(fields)[i] && Lookup(fields, r[i].0) == Some(r[i].1)
  {
    var ks := Keys(fields);
    assert forall i :: 0 <= i < |ks| ==> Lookup(fields, ks[i]).Some? by {
      forall i | 0 <= i < |ks| {
        KeyFound(fields, ks[i]);
      }
    }
    seq(|ks|, i requires 0 <= i < |ks| => (ks[i], Lookup(fields, ks[i]).value))
  }

  lemma KeyFound(fields: seq<(string, Json)>, k: string)
    requires k in Keys(fields)
    ensures Lookup(fields, k).Some?
  {
    var i :| 0 <= i < |fields| && fields[i].0 == k;
  }

  /** Without repeated keys, iterating an object yields its fields exactly as written. */
  lemma {:induction false} ItemsOfDistinct(fields: seq<(string, Json)>)
    requires forall i, j :: 0 <= i < j < |fields| ==> fields[i].0 != fields[j].0
    ensures Items(fields) == fields
  {
    KeysOfDistinct(fields);
    forall i | 0 <= i < |fields|
      ensures Lookup(fields, fields[i].0) == Some(fields[i].1)
    {
      LookupDistinct(fields, i);
    }
  }

  lemma {:induction false} KeysOfDistinct(fields: seq<(string, Json)>)
    requires forall i, j :: 0 <= i < j < |fields| ==> fields[i].0 != fields[j].0
    ensures |Keys(fields)| == |fields|
    ensures forall i :: 0 <= i < |fields| ==> Keys(fields)[i] == fields[i].0
  {
    if |fields| > 0 {
      var front := fields[..|fields| - 1];
      KeysOfDistinct(front);
      assert fields[|fields| - 1].0 !in Keys(front);
    }
  }

  lemma LookupDistinct(fields: seq<(string, Json)>, i: nat)
    requires forall i, j :: 0 <= i < j < |fields| ==> fields[i].0 != fields[j].0
    requires i < |fields|
    ensures Lookup(fields, fields[i].0) == Some(fields[i].1)
  {
  }

  /**
   * What iterating a value yields in Python: a list its items, a string its
   * characters, a dict its keys; `None`, numbers and booleans are not iterable.
   */
  function Iterate(v: Json): (r: Result<seq<Json>, Exception>)
    ensures v.JArray? ==> r == Ok(v.items)
    ensures (v.JNumber? || v.JBool? || v.JNull?) ==> r == Err(TypeError)
    ensures v.JString? ==> r.Ok? && |r.value| == |v.s| && forall i :: 0 <= i < |v.s| ==> r.value[i] == JString([v.s[i]])
  {
    match v
    case JArray(xs) => Ok(xs)
    case JString(s) => Ok(seq(|s|, i requires 0 <= i < |s| => JString([s[i]])))
    case JObject(fs) => Ok(seq(|Keys(fs)|, i requires 0 <= i < |Keys(fs)| => JString(Keys(fs)[i])))
    case _ => Err(TypeError)
  }

  /** Python truthiness of a parsed JSON value. */
  predicate Truthy(v: Json)
  {
    match v
    case JNull => false
    case JBool(b) => b
    case JNumber(n) => n != 0.0
    case JString(s) => s != ""
    case JArray(xs) => xs != []
    case JObject(fs) => fs != []
  }

  /** `v` is an array whose every element is a string (`z.array(z.string())`). */
  predicate IsStringArray(v: Json)
  {
    v.JArray? && forall i :: 0 <= i < |v.items| ==> v.items[i].JString?
  }

  /** The strings of a string array. */
  function StringItems(v: Json): (r: seq<string>)
    requires IsStringArray(v)
    ensures |r| == |v.items| && forall i :: 0 <= i < |r| ==> v.items[i] == JString(r[i])
  {
    seq(|v.items|, i requires 0 <= i < |v.items| => v.items[i].s)
  }

  /** A string array holding `ss`. */
  function StringArray(ss: seq<string>): (v: Json)
    ensures IsStringArray(v) && StringItems(v) == ss
  {
    var v := JArray(seq(|ss|, i requires 0 <= i < |ss| => JString(ss[i])));
    assert StringItems(v) == ss;
    v
  }
}
