/** The cloud inverter platform: the `InverterList` response, its allow-list
    extraction, and the refresh of its endpoint. */
module Inverter {
  import opened Wrappers
  import opened Errors
  import opened Json
  import opened Portal
  import opened Client
  import opened Coordinator

  /** `INVERTER_SENSORS`: the allow-listed names and their units. The source lists
      `PV1 Input Power` twice with the same unit; a dict keeps it once. */
  const Sensors: map<string, Option<string>> := map[
    "PV1 Current" := Some("A"),
    "PV2 Current" := Some("A"),
    "PV1 Voltage" := Some("V"),
    "PV2 Voltage" := Some("V"),
    "PV1 Input Power" := Some("W"),
    "Output Current" := Some("A"),
    "Network Voltage" := Some("V"),
    "Power Now" := Some("W"),
    "Exported Power" := Some("W"),
    "Exported energy" := Some("kWh"),
    "Grid Consumption" := Some("kWh"),
    "FAC1" := Some("Hz"),
    "Today's Energy" := Some("kWh"),
    "Total Energy" := Some("kWh"),
    "EPS Voltage" := Some("V"),
    "EPS Current" := Some("A"),
    "EPS Power" := Some("W"),
    "EPS Frequency" := Some("Hz"),
    "BMS Lost" := None
  ]

  /** A response validated by `INVERTER_SCHEMA`. */
  datatype Response = Response(data: seq<DataDict>)

  ghost predicate IsResponse(c: Coercions, j: Json)
  {
    Field(j, "data").Some? && Field(j, "data").value.JArray? &&
    forall i :: 0 <= i < |Field(j, "data").value.items| ==> IsDataDict(c, Field(j, "data").value.items[i])
  }

  /** `INVERTER_SCHEMA`: a required `data` list of `dataDict` objects. */
  function ValidateResponse(c: Coercions, j: Json): (r: Validated<Response>)
    ensures r.Valid? <==> IsResponse(c, j)
    ensures r.Valid? ==> |r.value.data| == |Field(j, "data").value.items|
    ensures r.Valid? ==> forall i :: 0 <= i < |r.value.data| ==>
      ValidateDataDict(c, Field(j, "data").value.items[i]) == Valid(r.value.data[i])
  {
    match Field(j, "data")
    case None => Invalid
    case Some(d) =>
      match ListOf(x => ValidateDataDict(c, x), d)
      case Valid(entries) => Valid(Response(entries))
      case Invalid => Invalid
  }

  /** A response missing `data`, or one with an item whose `value` cannot be coerced to a number, is refused. */
  lemma RefusesMissingOrUncoercible(c: Coercions, j: Json)
    requires Field(j, "data").None? ||
      (Field(j, "data").value.JArray? &&
       exists i, k :: 0 <= i < |Field(j, "data").value.items| &&
         Field(Field(j, "data").value.items[i], "dataDict").Some? &&
         Field(Field(j, "data").value.items[i], "dataDict").value.JArray? &&
         0 <= k < |Field(Field(j, "data").value.items[i], "dataDict").value.items| &&
         Field(Field(Field(j, "data").value.items[i], "dataDict").value.items[k], "value").Some? &&
         c.toFloat(Field(Field(Field(j, "data").value.items[i], "dataDict").value.items[k], "value").value).None?)
    ensures ValidateResponse(c, j).Invalid?
  {
    if Field(j, "data").Some? {
      var i, k :| 0 <= i < |Field(j, "data").value.items| &&
         Field(Field(j, "data").value.items[i], "dataDict").Some? &&
         Field(Field(j, "data").value.items[i], "dataDict").value.JArray? &&
         0 <= k < |Field(Field(j, "data").value.items[i], "dataDict").value.items| &&
         Field(Field(Field(j, "data").value.items[i], "dataDict").value.items[k], "value").Some? &&
         c.toFloat(Field(Field(Field(j, "data").value.items[i], "dataDict").value.items[k], "value").value).None?;
      assert !IsItem(c, Field(Field(j, "data").value.items[i], "dataDict").value.items[k]);
      assert !IsDataDict(c, Field(j, "data").value.items[i]);
    }
  }

  /** `req.json()` then `INVERTER_SCHEMA`. */
  function Accept(c: Coercions): Body -> Decoded<Response>
  {
    b => Decode(x => ValidateResponse(c, x), b)
  }

  /** The map the parse loop has built after the given items: allow-listed names
      only, a later item overwriting an earlier one of the same name. */
  function Extracted(items: seq<Item>): Snapshot
  {
    if items == [] then map[]
    else
      var e := items[|items| - 1];
      var m := Extracted(items[..|items| - 1]);
      if e.name in Sensors then m[e.name := e.value] else m
  }

  /** The result's keys are exactly the allow-listed names that occur in the items. */
  lemma {:induction false} ExtractedKeys(items: seq<Item>)
    ensures forall n :: n in Extracted(items) <==> n in Sensors && exists i :: 0 <= i < |items| && items[i].name == n
  {
    if items != [] {
      var front := items[..|items| - 1];
      ExtractedKeys(front);
      assert forall i :: 0 <= i < |front| ==> front[i] == items[i];
    }
  }

  /** The value kept for a name is that of the name's last occurrence. */
  lemma {:induction false} ExtractedLastWins(items: seq<Item>, k: nat)
    requires k < |items| && items[k].name in Sensors
    requires forall j :: k < j < |items| ==> items[j].name != items[k].name
    ensures items[k].name in Extracted(items) && Extracted(items)[items[k].name] == items[k].value
  {
    if k < |items| - 1 {
      var front := items[..|items| - 1];
      assert front[k] == items[k];
      ExtractedLastWins(front, k);
    }
  }

  /** One unknown and one known name: only the known one is kept. */
  lemma UnknownNameDropped(foo: Item, pv1: Item)
    requires foo.name == "Foo" && pv1.name == "PV1 Current"
    ensures Extracted([foo, pv1]) == map["PV1 Current" := pv1.value]
  {
    assert [foo, pv1][..1] == [foo];
    assert [foo][..0] == [];
    assert "Foo" !in Sensors;
    assert Extracted([foo]) == map[];
  }

  /** `BMS Lost` has no unit but is allow-listed, so the parse keeps it. */
  lemma BmsLostKept(items: seq<Item>, k: nat)
    requires k < |items| && items[k].name == "BMS Lost"
    ensures Sensors["BMS Lost"] == None && "BMS Lost" in Extracted(items)
  {
    ExtractedKeys(items);
  }

  /** `parse_solax_battery_response`: `json['data'][0]` raises on an empty list. */
  function Parsed(resp: Response): (r: Outcome<Snapshot>)
    ensures r.Raised? <==> resp.data == []
    ensures r.Raised? ==> r.error == IndexError
  {
    if resp.data == [] then Raised(IndexError) else Returned(Extracted(resp.data[0].dataDict))
  }

  /** The parse as the loop over `dataDict` that fills `result`. */
  method Parse(resp: Response) returns (r: Outcome<Snapshot>)
    ensures r == Parsed(resp)
    ensures r.Returned? ==> r.value.Keys <= Sensors.Keys
  {
    if resp.data == [] {
      return Raised(IndexError);
    }
    var items := resp.data[0].dataDict;
    var result: Snapshot := map[];
    var i := 0;
    while i < |items|
      invariant 0 <= i <= |items|
      invariant result == Extracted(items[..i])
      invariant result.Keys <= Sensors.Keys
    {
      var e := items[i];
      assert items[..i + 1][..i] == items[..i];
      if e.name in Sensors {
        result := result[e.name := e.value];
      }
      i := i + 1;
    }
    assert items[..i] == items;
    return Returned(result);
  }

  /** The request with `retry = 3` followed by the parse: what the `try` of `async_refresh` yields. */
  function Fetch(c: Coercions, outcomes: seq<Attempt<Body>>): Outcome<Snapshot>
    requires InitialRetry <= |outcomes|
  {
    match Request(Accept(c), outcomes, InitialRetry, 0).result
    case Returned(resp) => Parsed(resp)
    case Raised(e) => Raised(e)
  }

  /** Three timeouts end in `SolaxRequestError`, which the refresh catches. */
  lemma ThreeTimeoutsCaught(c: Coercions, outcomes: seq<Attempt<Body>>)
    requires InitialRetry <= |outcomes|
    requires outcomes[0].Timeout? && outcomes[1].Timeout? && outcomes[2].Timeout?
    ensures Fetch(c, outcomes) == Raised(SolaxRequestError)
  {
    ThreeTimeoutsFail(Accept(c), outcomes);
  }

  /** A fetch that returns gives a snapshot of allow-listed names; the only exceptions are
      `SolaxRequestError` and, for a validated response with an empty `data` list, `IndexError`. */
  lemma FetchOutcomes(c: Coercions, outcomes: seq<Attempt<Body>>)
    requires InitialRetry <= |outcomes|
    ensures Fetch(c, outcomes).Returned? ==> Fetch(c, outcomes).value.Keys <= Sensors.Keys
    ensures Fetch(c, outcomes).Raised? ==> Fetch(c, outcomes).error in {SolaxRequestError, IndexError}
  {
    ReturnsOnlyAccepted(Accept(c), outcomes, InitialRetry, 0);
    var t := Request(Accept(c), outcomes, InitialRetry, 0);
    if t.result.Returned? && t.result.value.data != [] {
      ExtractedKeys(t.result.value.data[0].dataDict);
    }
  }

  /** The unit of a sensor: `INVERTER_SENSORS[key]`. */
  function Unit(key: string): Option<string>
    requires key in Sensors
  {
    Sensors[key]
  }

  /** Every allow-listed name has a unit except `BMS Lost`, whose unit is `None`. */
  lemma UnitsOfTable()
    ensures Unit("BMS Lost") == None
    ensures forall k :: k in Sensors && k != "BMS Lost" ==> Unit(k).Some?
  {
  }

  /** Setup: one sensor per table entry. */
  method Setup() returns (e: Endpoint)
    ensures fresh(e) && e.Valid() && e.data == map[] && !e.ready
    ensures forall i :: 0 <= i < |e.sensors| ==> e.sensors[i].key in Sensors && e.sensors[i].value == None
    ensures forall k :: k in Sensors ==> exists i :: 0 <= i < |e.sensors| && e.sensors[i].key == k
    ensures |e.sensors| == |Sensors|
    ensures forall i :: 0 <= i < |e.sensors| ==> fresh(e.sensors[i])
  {
    e := new Endpoint(Sensors.Keys);
  }

  /** `BatteryEndpoint.async_refresh` of the inverter platform. */
  method RefreshEndpoint(c: Coercions, e: Endpoint, outcomes: seq<Attempt<Body>>, now: Option<Instant>)
    returns (sig: Signal)
    requires e.Valid() && InitialRetry <= |outcomes|
    modifies e, e.sensors
    ensures e.Valid()
    ensures e.Refreshed(Fetch(c, outcomes), now, sig)
  {
    var t := RequestLoop(Accept(c), outcomes, InitialRetry);
    var fetched: Outcome<Snapshot>;
    match t.result {
      case Returned(resp) => fetched := Parse(resp);
      case Raised(err) => fetched := Raised(err);
    }
    sig := e.Apply(fetched, now);
  }
}
