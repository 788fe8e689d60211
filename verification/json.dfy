/** JSON-like values as the plugins build them from Python dicts and lists. */
module Json {
  import opened Basics
  import opened Dicts

  datatype Json =
    | JNull
    | JBool(b: bool)
    | JInt(i: int)
    | JReal(r: real)
    | JStr(s: string)
    | JArr(items: seq<Json>)
    | JObj(fields: Dict<Json>)

  /** `data.get(key)` on an object; `None` for a missing key or a non-object. */
  function Field(j: Json, key: string): (r: Option<Json>)
    ensures j.JObj? && r.Some? ==> HasKey(j.fields, key)
  {
    if j.JObj? then Get(j.fields, key) else None
  }

  /** `data.get(key, default)` on an object. */
  function FieldOr(j: Json, key: string, default: Json): (r: Json)
    ensures Field(j, key).None? ==> r == default
  {
    match Field(j, key)
    case Some(v) => v
    case None => default
  }

  /** A list of strings as a JSON array. */
  function StrArray(xs: seq<string>): (j: Json)
    ensures j.JArr? && |j.items| == |xs|
    ensures forall i :: 0 <= i < |xs| ==> j.items[i] == JStr(xs[i])
  {
    JArr(seq(|xs|, i requires 0 <= i < |xs| => JStr(xs[i])))
  }

  /** Read back a JSON array of strings. */
  function AsStrings(j: Json): (r: Option<seq<string>>)
    ensures r.Some? ==> j.JArr? && |r.value| == |j.items|
  {
    if !j.JArr? then None
    else if forall i :: 0 <= i < |j.items| ==> j.items[i].JStr? then
      Some(seq(|j.items|, i requires 0 <= i < |j.items| => j.items[i].s))
    else None
  }

  /** A list of floats as a JSON array. */
  function RealArray(xs: seq<real>): (j: Json)
    ensures j.JArr? && |j.items| == |xs|
    ensures forall i :: 0 <= i < |xs| ==> j.items[i] == JReal(xs[i])
  {
    JArr(seq(|xs|, i requires 0 <= i < |xs| => JReal(xs[i])))
  }

  /** A JSON number as a float: integers are widened. */
  function AsReal(j: Json): Option<real>
  {
    match j
    case JReal(r) => Some(r)
    case JInt(i) => Some(i as real)
    case _ => None
  }

  /** Read back a JSON array of numbers. */
  function AsReals(j: Json): (r: Option<seq<real>>)
    ensures r.Some? ==> j.JArr? && |r.value| == |j.items|
  {
    if !j.JArr? then None
    else if forall i :: 0 <= i < |j.items| ==> AsReal(j.items[i]).Some? then
      Some(seq(|j.items|, i requires 0 <= i < |j.items| => AsReal(j.items[i]).value))
    else None
  }

  /** String lists survive the trip through JSON. */
  lemma StrArrayRoundTrip(xs: seq<string>)
    ensures AsStrings(StrArray(xs)) == Some(xs)
  {
    var j := StrArray(xs);
    assert forall i :: 0 <= i < |j.items| ==> j.items[i].JStr?;
    var r := AsStrings(j).value;
    assert forall i :: 0 <= i < |xs| ==> r[i] == xs[i];
    assert r == xs;
  }

  /** Float lists survive the trip through JSON. */
  lemma RealArrayRoundTrip(xs: seq<real>)
    ensures AsReals(RealArray(xs)) == Some(xs)
  {
    var j := RealArray(xs);
    assert forall i :: 0 <= i < |j.items| ==> AsReal(j.items[i]) == Some(xs[i]);
    var r := AsReals(j).value;
    assert forall i :: 0 <= i < |xs| ==> r[i] == xs[i];
    assert r == xs;
  }
}
