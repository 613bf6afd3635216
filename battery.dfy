/** The cloud battery platform: the `BatteryList` response, its key-code
    extraction, an endpoint whose sensors pull their value when updated, and
    their fixed units. */
module Battery {
  import opened Wrappers
  import opened Errors
  import opened Json
  import opened Portal
  import opened Client
  import Coordinator

  /** `BATTERY_SENSORS`, in order, and the key code each is extracted from. */
  const Names: seq<string> := ["Voltage", "Current", "Power", "Temperature", "Remaining Capacity"]
  const Codes: seq<string> := ["b1_1", "b1_2", "b1_3", "b1_4", "b1_5"]

  /** `TEMP_CELSIUS` of the host. */
  const Celsius: string := "\U{00B0}C"

  /** The unit table of `unit_of_measurement`. */
  const Units: map<string, string> := map[
    "Voltage" := "V",
    "Current" := "A",
    "Power" := "W",
    "Temperature" := Celsius,
    "Remaining Capacity" := "%"
  ]

  /** A battery snapshot: a metric is `None` when its key code was absent. */
  type Snapshot = map<string, Option<Reading>>

  /** A validated `SOLAX_DATA_SCHEMA` element and a validated `BATTERY_SCHEMA` response. */
  datatype Site = Site(batList: seq<DataDict>)
  datatype Response = Response(data: seq<Site>)

  ghost predicate IsSite(c: Coercions, j: Json)
  {
    Field(j, "batList").Some? && Field(j, "batList").value.JArray? &&
    forall i :: 0 <= i < |Field(j, "batList").value.items| ==> IsDataDict(c, Field(j, "batList").value.items[i])
  }

  /** `SOLAX_DATA_SCHEMA`: a required `batList` list of `dataDict` objects. */
  function ValidateSite(c: Coercions, j: Json): (r: Validated<Site>)
    ensures r.Valid? <==> IsSite(c, j)
    ensures r.Valid? ==> |r.value.batList| == |Field(j, "batList").value.items|
    ensures r.Valid? ==> forall i :: 0 <= i < |r.value.batList| ==>
      ValidateDataDict(c, Field(j, "batList").value.items[i]) == Valid(r.value.batList[i])
  {
    match Field(j, "batList")
    case None => Invalid
    case Some(d) =>
      match ListOf(x => ValidateDataDict(c, x), d)
      case Valid(packs) => Valid(Site(packs))
      case Invalid => Invalid
  }

  ghost predicate IsResponse(c: Coercions, j: Json)
  {
    Field(j, "data").Some? && Field(j, "data").value.JArray? &&
    forall i :: 0 <= i < |Field(j, "data").value.items| ==> IsSite(c, Field(j, "data").value.items[i])
  }

  /** `BATTERY_SCHEMA`: the `data` -> `batList` -> `dataDict` nesting. */
  function ValidateResponse(c: Coercions, j: Json): (r: Validated<Response>)
    ensures r.Valid? <==> IsResponse(c, j)
    ensures r.Valid? ==> |r.value.data| == |Field(j, "data").value.items|
    ensures r.Valid? ==> forall i :: 0 <= i < |r.value.data| ==>
      ValidateSite(c, Field(j, "data").value.items[i]) == Valid(r.value.data[i])
  {
    match Field(j, "data")
    case None => Invalid
    case Some(d) =>
      match ListOf(x => ValidateSite(c, x), d)
      case Valid(sites) => Valid(Response(sites))
      case Invalid => Invalid
  }

  /** `req.json()` then `BATTERY_SCHEMA`. */
  function Accept(c: Coercions): Body -> Decoded<Response>
  {
    b => Decode(x => ValidateResponse(c, x), b)
  }

  /** `extract(key)`: the value of the first item with that key, `None` if there is none. */
  function FirstMatch(items: seq<Item>, code: string): (r: Option<Reading>)
    ensures r.None? <==> forall i :: 0 <= i < |items| ==> items[i].key != code
    ensures r.Some? ==>
      exists i :: 0 <= i < |items| && items[i].key == code && r.value == items[i].value && forall j :: 0 <= j < i ==> items[j].key != code
  {
    if items == [] then None
    else if items[0].key == code then Some(items[0].value)
    else
      var r := FirstMatch(items[1..], code);
      assert forall i :: 0 < i < |items| ==> items[i] == items[1..][i - 1];
      if r.Some? then
        var i :| 0 <= i < |items[1..]| && items[1..][i].key == code && r.value == items[1..][i].value &&
          forall j :: 0 <= j < i ==> items[1..][j].key != code;
        assert items[i + 1].key == code && forall j :: 0 <= j < i + 1 ==> items[j].key != code;
        r
      else r
  }

  /** The five-key dict literal of `parse_solax_battery_response`. */
  function Extract(items: seq<Item>): Snapshot
  {
    map[Names[0] := FirstMatch(items, Codes[0]),
        Names[1] := FirstMatch(items, Codes[1]),
        Names[2] := FirstMatch(items, Codes[2]),
        Names[3] := FirstMatch(items, Codes[3]),
        Names[4] := FirstMatch(items, Codes[4])]
  }

  /** The five names are distinct. */
  lemma NamesDistinct()
    ensures forall i, j :: 0 <= i < j < |Names| ==> Names[i] != Names[j]
  {
  }

  /** The dict literal holds exactly the five metric names. */
  lemma ExtractKeys(items: seq<Item>)
    ensures forall n :: n in Extract(items) <==> n in Names
  {
  }

  /** Each metric name holds the first-match value of its key code. */
  lemma ExtractValues(items: seq<Item>)
    ensures forall i :: 0 <= i < |Names| ==> Extract(items)[Names[i]] == FirstMatch(items, Codes[i])
  {
  }

  /** `parse_solax_battery_response`: only the first element of `data` and of `batList`
      is read, and an empty one raises `IndexError`. */
  function Parse(resp: Response): (r: Outcome<Snapshot>)
  {
    if resp.data == [] || resp.data[0].batList == [] then Raised(IndexError)
    else Returned(Extract(resp.data[0].batList[0].dataDict))
  }

  /** The parse fails exactly on an empty `data` or first `batList`; otherwise the snapshot
      has exactly the five metric names, each the first-match value of its key code. */
  lemma ParseResult(resp: Response)
    ensures Parse(resp).Returned? <==> resp.data != [] && resp.data[0].batList != []
    ensures Parse(resp).Raised? ==> Parse(resp).error == IndexError
    ensures Parse(resp).Returned? ==>
      var items := resp.data[0].batList[0].dataDict;
      (forall n :: n in Parse(resp).value <==> n in Names) &&
      forall i :: 0 <= i < 5 ==> Parse(resp).value[Names[i]] == FirstMatch(items, Codes[i])
  {
    if resp.data != [] && resp.data[0].batList != [] {
      ExtractKeys(resp.data[0].batList[0].dataDict);
      ExtractValues(resp.data[0].batList[0].dataDict);
    }
  }

  /** The request with `retry = 3` followed by the parse. */
  function Fetch(c: Coercions, outcomes: seq<Attempt<Body>>): Outcome<Snapshot>
    requires InitialRetry <= |outcomes|
  {
    match Request(Accept(c), outcomes, InitialRetry, 0).result
    case Returned(resp) => Parse(resp)
    case Raised(e) => Raised(e)
  }

  /** Three timeouts end in `SolaxRequestError`, which the refresh catches. */
  lemma ThreeTimeoutsCaught(c: Coercions, outcomes: seq<Attempt<Body>>)
    requires InitialRetry <= |outcomes|
    requires outcomes[0].Timeout? && outcomes[1].Timeout? && outcomes[2].Timeout?
    ensures Fetch(c, outcomes) == Raised(SolaxRequestError)
  {
    ThreeTimeoutsFail(Accept(c), outcomes);
  }

  /** A first attempt that fails other than by a timeout is caught after that one attempt. */
  lemma FirstFailureNotRetried(c: Coercions, outcomes: seq<Attempt<Body>>)
    requires InitialRetry <= |outcomes|
    requires outcomes[0].ClientError? || outcomes[0] == Received(NonJsonBody) ||
      (outcomes[0].Received? && outcomes[0].body.JsonBody? && ValidateResponse(c, outcomes[0].body.doc).Invalid?)
    ensures Request(Accept(c), outcomes, InitialRetry, 0).waits == [0]
    ensures Fetch(c, outcomes) == Raised(SolaxRequestError)
  {
    NoRetryUnlessTimeout(Accept(c), outcomes, InitialRetry, 0);
  }

  /** Every metric name has a unit, and only metric names do. */
  lemma UnitsCoverNames()
    ensures forall n :: n in Units <==> n in Names
    ensures Units[Names[3]] == Celsius
  {
  }

  /** One `Battery` entity. */
  class Sensor {
    const endpoint: BatteryEndpoint
    const key: string
    var value: Option<Reading>

    constructor (endpoint: BatteryEndpoint, key: string)
      ensures this.endpoint == endpoint && this.key == key && value == None
    {
      this.endpoint, this.key, value := endpoint, key, None;
    }

    function Name(): string { key }

    function State(): Option<Reading>
      reads this
    {
      value
    }

    /** `unit_of_measurement`: the fixed table V, A, W, degrees Celsius, %. */
    function Unit(): string
      requires key in Units
    {
      Units[key]
    }

    /** `async_update`: take the endpoint's value only when it is ready and has the key. */
    method Update()
      modifies this
      ensures value == if endpoint.ready && key in endpoint.data then endpoint.data[key] else old(value)
      ensures old(endpoint.Valid()) && this in endpoint.sensors ==> endpoint.Valid()
    {
      if endpoint.ready && key in endpoint.data {
        value := endpoint.data[key];
      }
    }
  }

  class BatteryEndpoint {
    var data: Snapshot
    var ready: bool
    var sensors: seq<Sensor>

    /** Distinct sensors of this endpoint with a unit each; while ready, each sensor whose
        key is in the snapshot shows the snapshot's value. */
    ghost predicate Valid()
      reads this, sensors
    {
      (forall i, j :: 0 <= i < j < |sensors| ==> sensors[i] != sensors[j]) &&
      (forall i :: 0 <= i < |sensors| ==> sensors[i].endpoint == this && sensors[i].key in Units) &&
      (ready ==> forall i :: 0 <= i < |sensors| && sensors[i].key in data ==> sensors[i].value == data[sensors[i].key])
    }

    constructor ()
      ensures Valid() && data == map[] && !ready && sensors == []
    {
      data, ready, sensors := map[], false, [];
    }

    /** Every sensor ran `async_update` against the new state. */
    twostate predicate Updated()
      reads this, sensors
    {
      sensors == old(sensors) &&
      forall i :: 0 <= i < |sensors| ==>
        sensors[i].value == if ready && sensors[i].key in data then data[sensors[i].key] else old(sensors[i].value)
    }

    twostate predicate Untouched()
      reads this, sensors
    {
      data == old(data) && ready == old(ready) && ValuesKept()
    }

    twostate predicate Refreshed(new fetched: Outcome<Snapshot>, now: Option<Coordinator.Instant>, sig: Coordinator.Signal)
      reads this, sensors
    {
      match fetched
      case Returned(m) => sig == Coordinator.Done && data == m && ready && Updated()
      case Raised(SolaxRequestError) =>
        if now.Some? then sig == Coordinator.Done && data == old(data) && !ready && ValuesKept()
        else sig == Coordinator.PlatformNotReady && Untouched()
      case Raised(e) => sig == Coordinator.Uncaught(e) && Untouched()
    }

    /** After a scheduled failure no sensor value changed. */
    twostate predicate ValuesKept()
      reads this, sensors
    {
      sensors == old(sensors) &&
      forall i :: 0 <= i < |sensors| ==> sensors[i].value == old(sensors[i].value)
    }

    /** `async_refresh` given what its `try` block produced, with the forced update of every sensor. */
    method Apply(fetched: Outcome<Snapshot>, now: Option<Coordinator.Instant>) returns (sig: Coordinator.Signal)
      requires Valid()
      modifies this`data, this`ready, sensors
      ensures Valid()
      ensures Refreshed(fetched, now, sig)
    {
      match fetched {
        case Returned(m) =>
          data, ready := m, true;
        case Raised(e) =>
          if e != SolaxRequestError {
            return Coordinator.Uncaught(e);
          }
          if now.None? {
            return Coordinator.PlatformNotReady;
          }
          ready := false;
      }
      var i := 0;
      while i < |sensors|
        invariant 0 <= i <= |sensors|
        invariant data == (if fetched.Returned? then fetched.value else old(data))
        invariant ready == fetched.Returned?
        invariant forall k :: 0 <= k < i ==>
          sensors[k].value == if ready && sensors[k].key in data then data[sensors[k].key] else old(sensors[k].value)
        invariant forall k :: i <= k < |sensors| ==> sensors[k].value == old(sensors[k].value)
      {
        sensors[i].Update();
        i := i + 1;
      }
      sig := Coordinator.Done;
    }

    /** `async_refresh`: the request with `retry = 3`, the parse, then `Apply`. */
    method Refresh(c: Coercions, outcomes: seq<Attempt<Body>>, now: Option<Coordinator.Instant>) returns (sig: Coordinator.Signal)
      requires Valid() && InitialRetry <= |outcomes|
      modifies this`data, this`ready, sensors
      ensures Valid()
      ensures Refreshed(Fetch(c, outcomes), now, sig)
    {
      var t := RequestLoop(Accept(c), outcomes, InitialRetry);
      var fetched := match t.result case Returned(resp) => Parse(resp) case Raised(e) => Raised(e);
      assert fetched == Fetch(c, outcomes);
      sig := Apply(fetched, now);
    }
  }

  /** `async_setup_platform`: an endpoint and one sensor per metric name, in order. */
  method Setup() returns (e: BatteryEndpoint)
    ensures fresh(e) && e.Valid() && e.data == map[] && !e.ready
    ensures |e.sensors| == |Names|
    ensures forall i :: 0 <= i < |Names| ==> e.sensors[i].key == Names[i] && e.sensors[i].value == None
    ensures forall i :: 0 <= i < |e.sensors| ==> fresh(e.sensors[i])
    ensures forall i, j :: 0 <= i < j < |e.sensors| ==> e.sensors[i].key != e.sensors[j].key
  {
    NamesDistinct();
    e := new BatteryEndpoint();
    var devices: seq<Sensor> := [];
    var i := 0;
    while i < |Names|
      invariant 0 <= i <= |Names| && |devices| == i
      invariant forall k :: 0 <= k < i ==> devices[k].key == Names[k] && devices[k].value == None
      invariant forall k :: 0 <= k < i ==> devices[k].endpoint == e && fresh(devices[k])
      invariant forall k, l :: 0 <= k < l < i ==> devices[k] != devices[l]
      invariant e.data == map[] && !e.ready && e.sensors == []
    {
      var s := new Sensor(e, Names[i]);
      devices := devices + [s];
      i := i + 1;
    }
    e.sensors := devices;
  }
}
