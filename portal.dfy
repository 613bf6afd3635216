/** The schemas the two cloud platforms share (`SOLAX_BATTERY_DATA` and
    `SOLAX_BATTERY_SCHEMA`, written identically in both files), and the
    decoding of a response body with `req.json()` followed by a schema. */
module Portal {
  import opened Wrappers
  import opened Json
  import Client

  /** One validated `dataDict` element, `value` coerced to a number. */
  datatype Item = Item(key: string, name: string, value: Reading, unit: string)

  /** A validated `{"dataDict": [...]}` object; other keys are removed. */
  datatype DataDict = DataDict(dataDict: seq<Item>)

  /** A response body as `req.json()` sees it. */
  datatype Body = JsonBody(doc: Json) | NonJsonBody

  /** The keys of an item; the item schema has no `extra` setting, so it refuses any other key. */
  const ItemKeys: set<string> := {"key", "name", "value", "unit"}

  ghost predicate IsItem(c: Coercions, j: Json)
  {
    j.JObject? && j.fields.Keys == ItemKeys &&
    c.toStr(j.fields["key"]).Some? && c.toStr(j.fields["name"]).Some? &&
    c.toFloat(j.fields["value"]).Some? && c.toStr(j.fields["unit"]).Some?
  }

  /** `SOLAX_BATTERY_DATA`: exactly the four keys, three strings and a number-coercible value. */
  function ValidateItem(c: Coercions, j: Json): (r: Validated<Item>)
    ensures r.Valid? <==> IsItem(c, j)
    ensures r.Valid? ==>
      c.toStr(j.fields["key"]) == Some(r.value.key) && c.toStr(j.fields["name"]) == Some(r.value.name) &&
      c.toFloat(j.fields["value"]) == Some(r.value.value) && c.toStr(j.fields["unit"]) == Some(r.value.unit)
  {
    if j.JObject? && j.fields.Keys == ItemKeys then
      match (c.toStr(j.fields["key"]), c.toStr(j.fields["name"]), c.toFloat(j.fields["value"]), c.toStr(j.fields["unit"]))
      case (Some(k), Some(n), Some(v), Some(u)) => Valid(Item(k, n, v, u))
      case _ => Invalid
    else Invalid
  }

  ghost predicate IsDataDict(c: Coercions, j: Json)
  {
    Field(j, "dataDict").Some? && Field(j, "dataDict").value.JArray? &&
    forall i :: 0 <= i < |Field(j, "dataDict").value.items| ==> IsItem(c, Field(j, "dataDict").value.items[i])
  }

  /** `SOLAX_BATTERY_SCHEMA`: a required `dataDict` list of items. */
  function ValidateDataDict(c: Coercions, j: Json): (r: Validated<DataDict>)
    ensures r.Valid? <==> IsDataDict(c, j)
    ensures r.Valid? ==> |r.value.dataDict| == |Field(j, "dataDict").value.items|
    ensures r.Valid? ==> forall i :: 0 <= i < |r.value.dataDict| ==>
      ValidateItem(c, Field(j, "dataDict").value.items[i]) == Valid(r.value.dataDict[i])
  {
    match Field(j, "dataDict")
    case None => Invalid
    case Some(d) =>
      match ListOf(x => ValidateItem(c, x), d)
      case Valid(items) => Valid(DataDict(items))
      case Invalid => Invalid
  }

  /** `req.json()` followed by `schema(json_response)`. */
  function Decode<T>(schema: Json -> Validated<T>, b: Body): (r: Client.Decoded<T>)
    ensures r.NotJson? <==> b.NonJsonBody?
    ensures r.Accepted? <==> b.JsonBody? && schema(b.doc).Valid?
    ensures r.Accepted? ==> r.value == schema(b.doc).value
  {
    match b
    case NonJsonBody => Client.NotJson
    case JsonBody(doc) =>
      match schema(doc)
      case Valid(v) => Client.Accepted(v)
      case Invalid => Client.SchemaInvalid
  }
}
