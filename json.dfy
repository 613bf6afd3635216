/** Parsed JSON documents and the small part of voluptuous the schemas use:
    required keys, lists of a sub-schema, and the host's coercing validators. */
module Json {
  import opened Wrappers

  /** A metric value once coerced to a number. The platforms never compute on it. */
  type Reading = real

  datatype Json =
    | JNull
    | JBool(b: bool)
    | JNum(n: real)
    | JStr(s: string)
    | JArray(items: seq<Json>)
    | JObject(fields: map<string, Json>)

  /** The result of applying a schema: the shaped value, or `vol.Invalid`. */
  datatype Validated<+T> = Valid(value: T) | Invalid

  /** The host's coercing validators, whose internals are not modelled:
      `cv.string`, `vol.Coerce(float)` and `cv.positive_int`. */
  datatype Coercions = Coercions(
    toStr: Json -> Option<string>,
    toFloat: Json -> Option<Reading>,
    toPositiveInt: Json -> Option<nat>)

  /** The value under a required key of an object, if the document is an object holding it. */
  function Field(j: Json, key: string): Option<Json>
  {
    if j.JObject? && key in j.fields then Some(j.fields[key]) else None
  }

  /** A voluptuous list schema `[v]` applied to the items of a list:
      every item must pass `v`, and the result lists what `v` made of each. */
  function ValidateList<T>(v: Json -> Validated<T>, items: seq<Json>): (r: Validated<seq<T>>)
    ensures r.Valid? <==> forall i :: 0 <= i < |items| ==> v(items[i]).Valid?
    ensures r.Valid? ==> |r.value| == |items|
    ensures r.Valid? ==> forall i :: 0 <= i < |items| ==> v(items[i]) == Valid(r.value[i])
  {
    if items == [] then Valid([])
    else
      match (v(items[0]), ValidateList(v, items[1..]))
      case (Valid(x), Valid(xs)) =>
        assert forall i :: 0 < i < |items| ==> items[i] == items[1..][i - 1];
        Valid([x] + xs)
      case (_, rest) =>
        assert rest.Invalid? ==> exists i :: 0 <= i < |items[1..]| && !v(items[1..][i]).Valid?;
        Invalid
  }

  /** `[v]` applied to any document: only a list can pass. */
  function ListOf<T>(v: Json -> Validated<T>, j: Json): (r: Validated<seq<T>>)
    ensures r.Valid? <==> j.JArray? && forall i :: 0 <= i < |j.items| ==> v(j.items[i]).Valid?
    ensures r.Valid? ==> |r.value| == |j.items|
    ensures r.Valid? ==> forall i :: 0 <= i < |j.items| ==> v(j.items[i]) == Valid(r.value[i])
  {
    if j.JArray? then ValidateList(v, j.items) else Invalid
  }
}
