/** The local real-time platform: the inverter's `realTimeData.htm` answer,
    repaired for empty fields, validated, indexed through a name -> (index, unit)
    table, and the refresh of its endpoint. */
module RealTime {
  import opened Wrappers
  import opened Errors
  import opened Json
  import opened Client
  import opened Coordinator

  /** The length `REAL_TIME_DATA_SCHEMA` demands of the `Data` list. */
  const DataLength: nat := 68

  /** `TEMP_CELSIUS` of the host. */
  const Celsius: string := "\U{00B0}C"

  /** A table entry: a sensor name, the index of its reading in `Data`, and its unit. */
  type Entry = (string, (nat, string))

  /** The entries of the `INVERTER_SENSORS` dict display, in the order written. */
  const Table: seq<Entry> := [
    ("PV1 Current", (0, "A")),
    ("PV2 Current", (1, "A")),
    ("PV1 Voltage", (2, "V")),
    ("PV2 Voltage", (3, "V")),
    ("Output Current", (4, "A")),
    ("Network Voltage", (5, "V")),
    ("Power Now", (6, "W")),
    ("Inverter Temperature", (7, Celsius)),
    ("Today's Energy", (8, "kWh")),
    ("Total Energy", (9, "kWh")),
    ("Exported Power", (10, "W")),
    ("PV1 Power", (11, "W")),
    ("PV2 Power", (12, "W")),
    ("Battery Voltage", (13, "V")),
    ("Battery Current", (14, "A")),
    ("Battery Power", (15, "W")),
    ("Battery Temperature", (16, Celsius)),
    ("Battery Remaining Capacity", (17, "%")),
    ("Battery Energy", (19, "kWh")),
    ("Grid Frequency", (50, "Hz")),
    ("EPS Voltage", (53, "V")),
    ("EPS Current", (54, "A")),
    ("EPS Power", (55, "W")),
    ("EPS Frequency", (56, "Hz"))
  ]

  /** A dict display: entries inserted in order, a later key overwriting an earlier one. */
  function DictOf(entries: seq<Entry>): map<string, (nat, string)>
  {
    if entries == [] then map[]
    else DictOf(entries[..|entries| - 1])[entries[|entries| - 1].0 := entries[|entries| - 1].1]
  }

  /** No name is listed twice. */
  ghost predicate DistinctNames(entries: seq<Entry>)
  {
    forall i, j :: 0 <= i < j < |entries| ==> entries[i].0 != entries[j].0
  }

  /** With distinct names, the dict holds exactly the listed names, each with its entry. */
  lemma {:induction false} DictOfEntries(entries: seq<Entry>)
    requires DistinctNames(entries)
    ensures forall n :: n in DictOf(entries) <==> exists i :: 0 <= i < |entries| && entries[i].0 == n
    ensures forall i :: 0 <= i < |entries| ==> DictOf(entries)[entries[i].0] == entries[i].1
  {
    if entries != [] {
      var init := entries[..|entries| - 1];
      assert DistinctNames(init) by {
        forall i, j | 0 <= i < j < |init| ensures init[i].0 != init[j].0 {
          assert init[i] == entries[i] && init[j] == entries[j];
        }
      }
      DictOfEntries(init);
      forall n ensures n in DictOf(entries) <==> exists i :: 0 <= i < |entries| && entries[i].0 == n {
        if n in DictOf(init) {
          var i :| 0 <= i < |init| && init[i].0 == n;
          assert entries[i] == init[i];
        }
        if exists i :: 0 <= i < |entries| && entries[i].0 == n {
          var i :| 0 <= i < |entries| && entries[i].0 == n;
          if i < |init| { assert init[i] == entries[i]; }
        }
      }
      forall i | 0 <= i < |entries| ensures DictOf(entries)[entries[i].0] == entries[i].1 {
        if i < |init| { assert init[i] == entries[i]; }
      }
    }
  }

  /** `INVERTER_SENSORS`: sensor name to its index in `Data` and its unit. */
  const Sensors: map<string, (nat, string)> := DictOf(Table)

  /** Names `j` in `[lo, lo + 6)` differ from every earlier name. */
  lemma NamesDistinctUpTo(lo: nat)
    requires lo % 6 == 0
    ensures forall i, j :: 0 <= i < j < |Table| && lo <= j < lo + 6 ==> Table[i].0 != Table[j].0
  {
  }
  /** The display lists no name twice. */
  lemma NamesDistinct()
    ensures DistinctNames(Table)
  {
    NamesDistinctUpTo(0);
    NamesDistinctUpTo(6);
    NamesDistinctUpTo(12);
    NamesDistinctUpTo(18);
  }
  /** The indices grow along the display. */
  lemma IndicesIncrease()
    ensures forall i, j :: 0 <= i < j < |Table| ==> Table[i].1.0 < Table[j].1.0
  {
  }

  /** Every index of the display is below the length of `Data`. */
  lemma EntriesInRange()
    ensures forall i :: 0 <= i < |Table| ==> Table[i].1.0 < DataLength
  {
  }

  /** Every table index lies inside a validated `Data` list. */
  lemma IndicesInRange()
    ensures forall n :: n in Sensors ==> Sensors[n].0 < DataLength
  {
    NamesDistinct();
    DictOfEntries(Table);
    EntriesInRange();
  }

  /** No two sensors read the same slot of `Data`. */
  lemma IndicesDistinct()
    ensures forall a, b :: a in Sensors && b in Sensors && a != b ==> Sensors[a].0 != Sensors[b].0
  {
    NamesDistinct();
    DictOfEntries(Table);
    IndicesIncrease();
    forall a, b | a in Sensors && b in Sensors && a != b
      ensures Sensors[a].0 != Sensors[b].0
    {
      var i :| 0 <= i < |Table| && Table[i].0 == a;
      var j :| 0 <= j < |Table| && Table[j].0 == b;
    }
  }

  // ---------------------------------------------------------------------------
  // The repair of empty fields: `.replace(",,", ",0.0,")`, applied twice.

  ghost predicate NoCommaPair(s: string)
  {
    forall i :: 0 <= i < |s| - 1 ==> !(s[i] == ',' && s[i + 1] == ',')
  }

  ghost predicate NoCommaTriple(s: string)
  {
    forall i :: 0 <= i < |s| - 2 ==> !(s[i] == ',' && s[i + 1] == ',' && s[i + 2] == ',')
  }

  /** One `str.replace(",,", ",0.0,")`: left to right, matches do not overlap. */
  function FillOnce(s: string): string
  {
    if |s| < 2 then s
    else if s[0] == ',' && s[1] == ',' then ",0.0," + FillOnce(s[2..])
    else [s[0]] + FillOnce(s[1..])
  }

  /** The two passes of `async_solax_real_time_request`. */
  function Repair(s: string): string
  {
    FillOnce(FillOnce(s))
  }

  /** A pass keeps the first character and never starts with two commas. */
  lemma {:induction false} FillOnceStart(s: string)
    ensures |FillOnce(s)| >= |s|
    ensures |s| > 0 ==> FillOnce(s)[0] == s[0]
    ensures !(|FillOnce(s)| >= 2 && FillOnce(s)[0] == ',' && FillOnce(s)[1] == ',')
  {
    if |s| >= 2 {
      if s[0] == ',' && s[1] == ',' {
        FillOnceStart(s[2..]);
      } else {
        FillOnceStart(s[1..]);
      }
    }
  }

  /** After one pass no three commas follow each other. */
  lemma {:induction false} FillOnceNoTriple(s: string)
    ensures NoCommaTriple(FillOnce(s))
  {
    if |s| >= 2 {
      var f := FillOnce(s);
      if s[0] == ',' && s[1] == ',' {
        var rest := FillOnce(s[2..]);
        FillOnceNoTriple(s[2..]);
        FillOnceStart(s[2..]);
        assert f == ",0.0," + rest;
        forall i | 0 <= i < |f| - 2
          ensures !(f[i] == ',' && f[i + 1] == ',' && f[i + 2] == ',')
        {
          if i >= 5 {
            assert f[i] == rest[i - 5] && f[i + 1] == rest[i - 4] && f[i + 2] == rest[i - 3];
          } else if i == 4 {
            assert f[i + 1] == rest[0] && f[i + 2] == rest[1];
          }
        }
      } else {
        var rest := FillOnce(s[1..]);
        FillOnceNoTriple(s[1..]);
        FillOnceStart(s[1..]);
        assert f == [s[0]] + rest;
        forall i | 0 <= i < |f| - 2
          ensures !(f[i] == ',' && f[i + 1] == ',' && f[i + 2] == ',')
        {
          if i >= 1 {
            assert f[i] == rest[i - 1] && f[i + 1] == rest[i] && f[i + 2] == rest[i + 1];
          } else {
            assert f[1] == rest[0] && f[2] == rest[1];
          }
        }
      }
    }
  }

  /** A pass over text without three commas in a row leaves no two in a row. */
  lemma {:induction false} FillOnceClearsPairs(s: string)
    requires NoCommaTriple(s)
    ensures NoCommaPair(FillOnce(s))
  {
    if |s| >= 2 {
      var f := FillOnce(s);
      if s[0] == ',' && s[1] == ',' {
        var t := s[2..];
        assert NoCommaTriple(t) by {
          forall i | 0 <= i < |t| - 2
            ensures !(t[i] == ',' && t[i + 1] == ',' && t[i + 2] == ',')
          {
            assert t[i] == s[i + 2] && t[i + 1] == s[i + 3] && t[i + 2] == s[i + 4];
          }
        }
        var rest := FillOnce(t);
        FillOnceClearsPairs(t);
        FillOnceStart(t);
        assert f == ",0.0," + rest;
        assert |t| > 0 ==> t[0] != ',' by {
          if |t| > 0 { assert s[2] == t[0]; }
        }
        forall i | 0 <= i < |f| - 1
          ensures !(f[i] == ',' && f[i + 1] == ',')
        {
          if i >= 5 {
            assert f[i] == rest[i - 5] && f[i + 1] == rest[i - 4];
          } else if i == 4 {
            assert f[i + 1] == rest[0];
          }
        }
      } else {
        var r := s[1..];
        assert NoCommaTriple(r) by {
          forall i | 0 <= i < |r| - 2
            ensures !(r[i] == ',' && r[i + 1] == ',' && r[i + 2] == ',')
          {
            assert r[i] == s[i + 1] && r[i + 1] == s[i + 2] && r[i + 2] == s[i + 3];
          }
        }
        var rest := FillOnce(r);
        FillOnceClearsPairs(r);
        FillOnceStart(r);
        assert f == [s[0]] + rest;
        forall i | 0 <= i < |f| - 1
          ensures !(f[i] == ',' && f[i + 1] == ',')
        {
          if i >= 1 {
            assert f[i] == rest[i - 1] && f[i + 1] == rest[i];
          } else {
            assert f[1] == rest[0] == r[0] == s[1];
          }
        }
      }
    }
  }

  /** Text without two commas in a row passes a pass unchanged. */
  lemma {:induction false} FillOnceIdentity(s: string)
    requires NoCommaPair(s)
    ensures FillOnce(s) == s
  {
    if |s| >= 2 {
      var r := s[1..];
      assert NoCommaPair(r) by {
        forall i | 0 <= i < |r| - 1
          ensures !(r[i] == ',' && r[i + 1] == ',')
        {
          assert r[i] == s[i + 1] && r[i + 1] == s[i + 2];
        }
      }
      FillOnceIdentity(r);
      assert s == [s[0]] + r;
    }
  }

  /** After both passes the text holds no empty field `,,`. */
  lemma RepairClears(s: string)
    ensures NoCommaPair(Repair(s))
  {
    FillOnceNoTriple(s);
    FillOnceClearsPairs(FillOnce(s));
  }

  /** Text without an empty field passes the repair unchanged. */
  lemma RepairIdentity(s: string)
    requires NoCommaPair(s)
    ensures Repair(s) == s
  {
    FillOnceIdentity(s);
  }

  /** Three commas in a row: the first pass fills only the first pair, which is why
      the repair makes a second pass. */
  lemma RepairThreeCommas()
    ensures FillOnce(",,,") == ",0.0,,"
    ensures Repair(",,,") == ",0.0,0.0,"
  {
  }

  // ---------------------------------------------------------------------------
  // Validation.

  /** A validated `REAL_TIME_DATA_SCHEMA` document; other keys are removed. */
  datatype Response = Response(protocol: string, version: string, kind: string, sn: string, data: seq<Reading>, status: nat)

  /** What the bytes of a response decode to with UTF-8. */
  datatype Payload = Utf8(text: string) | NotUtf8

  /** A required key passed through a coercing validator. */
  function Through<T>(coerce: Json -> Option<T>, j: Json, key: string): Option<T>
  {
    match Field(j, key)
    case None => None
    case Some(x) => coerce(x)
  }

  function AsValidated<T>(o: Option<T>): Validated<T>
  {
    match o
    case None => Invalid
    case Some(v) => Valid(v)
  }

  /** `[vol.Coerce(float)]` on the `Data` field. */
  function DataList(c: Coercions, j: Json): (r: Validated<seq<Reading>>)
    ensures r.Valid? <==>
      Field(j, "Data").Some? && Field(j, "Data").value.JArray? &&
      forall i :: 0 <= i < |Field(j, "Data").value.items| ==> c.toFloat(Field(j, "Data").value.items[i]).Some?
    ensures r.Valid? ==> |r.value| == |Field(j, "Data").value.items|
    ensures r.Valid? ==> forall i :: 0 <= i < |r.value| ==> c.toFloat(Field(j, "Data").value.items[i]) == Some(r.value[i])
  {
    match Field(j, "Data")
    case None => Invalid
    case Some(d) =>
      var r := ListOf(x => AsValidated(c.toFloat(x)), d);
      assert r.Valid? ==> forall i :: 0 <= i < |r.value| ==> AsValidated(c.toFloat(d.items[i])) == Valid(r.value[i]);
      r
  }

  ghost predicate IsResponse(c: Coercions, j: Json)
  {
    Through(c.toStr, j, "method").Some? && Through(c.toStr, j, "version").Some? &&
    Through(c.toStr, j, "type").Some? && Through(c.toStr, j, "SN").Some? &&
    Field(j, "Data").Some? && Field(j, "Data").value.JArray? &&
    |Field(j, "Data").value.items| == DataLength &&
    (forall i :: 0 <= i < DataLength ==> c.toFloat(Field(j, "Data").value.items[i]).Some?) &&
    Through(c.toPositiveInt, j, "Status").Some?
  }

  /** `REAL_TIME_DATA_SCHEMA`: four strings, exactly 68 numbers, a positive integer status. */
  function ValidateResponse(c: Coercions, j: Json): (r: Validated<Response>)
    ensures r.Valid? <==> IsResponse(c, j)
    ensures r.Valid? ==> |r.value.data| == DataLength
    ensures r.Valid? ==> forall i :: 0 <= i < DataLength ==> c.toFloat(Field(j, "Data").value.items[i]) == Some(r.value.data[i])
    ensures r.Valid? ==>
      Through(c.toStr, j, "method") == Some(r.value.protocol) && Through(c.toStr, j, "version") == Some(r.value.version) &&
      Through(c.toStr, j, "type") == Some(r.value.kind)
    ensures r.Valid? ==>
      Through(c.toStr, j, "SN") == Some(r.value.sn) && Through(c.toPositiveInt, j, "Status") == Some(r.value.status)
  {
    match (Through(c.toStr, j, "method"), Through(c.toStr, j, "version"), Through(c.toStr, j, "type"),
           Through(c.toStr, j, "SN"), DataList(c, j), Through(c.toPositiveInt, j, "Status"))
    case (Some(m), Some(v), Some(t), Some(sn), Valid(d), Some(st)) =>
      if |d| == DataLength then Valid(Response(m, v, t, sn, d, st)) else Invalid
    case _ => Invalid
  }

  /** Decode, repair, `json.loads` (the parameter `loads`), then the schema. */
  function Accept(c: Coercions, loads: string -> Option<Json>): Payload -> Decoded<Response>
  {
    (p: Payload) =>
      match p
      case NotUtf8 => NotJson
      case Utf8(text) =>
        match loads(Repair(text))
        case None => NotJson
        case Some(doc) =>
          match ValidateResponse(c, doc)
          case Valid(v) => Accepted(v)
          case Invalid => SchemaInvalid
  }

  /** Whatever the decoder accepts passed `REAL_TIME_DATA_SCHEMA` after the repair. */
  lemma AcceptedIsValidated(c: Coercions, loads: string -> Option<Json>, p: Payload, v: Response)
    requires Accept(c, loads)(p) == Accepted(v)
    ensures p.Utf8? && loads(Repair(p.text)).Some? && ValidateResponse(c, loads(Repair(p.text)).value) == Valid(v)
    ensures |v.data| == DataLength
  {
  }

  // ---------------------------------------------------------------------------
  // The request.

  /** `async_solax_real_time_request` as written: a timeout while `retry` stays
      positive reaches a call to the undefined `async_solax_dashboard_request`. */
  function RequestAsWritten<B, T>(accept: B -> Decoded<T>, outcomes: seq<Attempt<B>>, retry: int, wait: nat): Trace<T>
    requires 1 <= |outcomes|
  {
    if outcomes[0].Timeout? && retry - 1 > 0 then Trace(Raised(NameError), [wait])
    else Trace(SettleWith(accept, outcomes[0]), [wait])
  }

  /** As written the request never makes a second attempt, and with the default
      budget a first timeout raises `NameError`, where the corrected request retries. */
  lemma AsWrittenNeverRetries<B, T>(accept: B -> Decoded<T>, outcomes: seq<Attempt<B>>, retry: int, wait: nat)
    requires MaxAttempts(retry) <= |outcomes| && 1 <= |outcomes|
    ensures RequestAsWritten(accept, outcomes, retry, wait).waits == [wait]
    ensures !outcomes[0].Timeout? ==>
      RequestAsWritten(accept, outcomes, retry, wait) == Request(accept, outcomes, retry, wait)
    ensures outcomes[0].Timeout? && retry >= 2 ==>
      RequestAsWritten(accept, outcomes, retry, wait).result == Raised(NameError) &&
      |Request(accept, outcomes, retry, wait).waits| >= 2 &&
      Request(accept, outcomes, retry, wait).result != Raised(NameError)
  {
    var t := Request(accept, outcomes, retry, wait);
    if outcomes[0].Timeout? && retry >= 2 {
      assert |t.waits| >= 2;
      ReturnsOnlyAccepted(accept, outcomes, retry, wait);
    }
  }

  // ---------------------------------------------------------------------------
  // The parse.

  /** `parse_solax_battery_response`: every table name mapped to its slot of `Data`,
      `IndexError` if a slot lies past the end. */
  function Extracted(data: seq<Reading>): Outcome<Snapshot>
  {
    if forall n :: n in Sensors ==> Sensors[n].0 < |data| then Returned(map n | n in Sensors :: data[Sensors[n].0])
    else Raised(IndexError)
  }

  /** The parse fails only with `IndexError` on a slot past the end, and otherwise
      maps exactly the table's names, each to its slot. */
  lemma ExtractedNames(data: seq<Reading>)
    ensures Extracted(data).Returned? <==> forall n :: n in Sensors ==> Sensors[n].0 < |data|
    ensures Extracted(data).Raised? ==> Extracted(data).error == IndexError
    ensures Extracted(data).Returned? ==>
      Extracted(data).value.Keys == Sensors.Keys &&
      forall n :: n in Sensors ==> Extracted(data).value[n] == data[Sensors[n].0]
  {
  }

  /** The parse as the loop over the table's items that fills `result`. */
  method Parse(data: seq<Reading>) returns (r: Outcome<Snapshot>)
    ensures r == Extracted(data)
  {
    var result: Snapshot := map[];
    var todo := Sensors.Keys;
    while todo != {}
      invariant todo <= Sensors.Keys
      invariant result.Keys == Sensors.Keys - todo
      invariant forall n :: n in result ==> Sensors[n].0 < |data| && result[n] == data[Sensors[n].0]
      decreases |todo|
    {
      var k :| k in todo;
      if Sensors[k].0 >= |data| {
        return Raised(IndexError);
      }
      result := result[k := data[Sensors[k].0]];
      todo := todo - {k};
    }
    assert forall n :: n in Sensors ==> n in result;
    assert result == map n | n in Sensors :: data[Sensors[n].0];
    return Returned(result);
  }

  /** A validated response always parses: every name, mapped to its slot. */
  lemma ValidatedParses(c: Coercions, j: Json)
    requires ValidateResponse(c, j).Valid?
    ensures Extracted(ValidateResponse(c, j).value.data).Returned?
    ensures var m := Extracted(ValidateResponse(c, j).value.data).value;
      m.Keys == Sensors.Keys &&
      forall n :: n in m ==> Some(m[n]) == c.toFloat(Field(j, "Data").value.items[Sensors[n].0])
  {
    IndicesInRange();
  }

  /** Request (corrected) with `retry = 3`, then the parse. */
  function Fetch(c: Coercions, loads: string -> Option<Json>, outcomes: seq<Attempt<Payload>>): Outcome<Snapshot>
    requires InitialRetry <= |outcomes|
  {
    match Request(Accept(c, loads), outcomes, InitialRetry, 0).result
    case Returned(resp) => Extracted(resp.data)
    case Raised(e) => Raised(e)
  }

  /** Request as written with `retry = 3`, then the parse. */
  function FetchAsWritten(c: Coercions, loads: string -> Option<Json>, outcomes: seq<Attempt<Payload>>): Outcome<Snapshot>
    requires 1 <= |outcomes|
  {
    match RequestAsWritten(Accept(c, loads), outcomes, InitialRetry, 0).result
    case Returned(resp) => Extracted(resp.data)
    case Raised(e) => Raised(e)
  }

  /** As written, a first timeout escapes the refresh as `NameError`. */
  lemma AsWrittenTimeoutEscapes(c: Coercions, loads: string -> Option<Json>, outcomes: seq<Attempt<Payload>>)
    requires 1 <= |outcomes| && outcomes[0].Timeout?
    ensures FetchAsWritten(c, loads, outcomes) == Raised(NameError)
  {
  }

  /** Corrected, a fetch returns a snapshot of every table name or raises `SolaxRequestError`. */
  lemma FetchCaughtOrComplete(c: Coercions, loads: string -> Option<Json>, outcomes: seq<Attempt<Payload>>)
    requires InitialRetry <= |outcomes|
    ensures Fetch(c, loads, outcomes).Raised? ==> Fetch(c, loads, outcomes).error == SolaxRequestError
    ensures Fetch(c, loads, outcomes).Returned? ==> Fetch(c, loads, outcomes).value.Keys == Sensors.Keys
  {
    var t := Request(Accept(c, loads), outcomes, InitialRetry, 0);
    ReturnsOnlyAccepted(Accept(c, loads), outcomes, InitialRetry, 0);
    if t.result.Returned? {
      var k :| 0 <= k < |outcomes| && outcomes[k].Received? && Accept(c, loads)(outcomes[k].body) == Accepted(t.result.value);
      AcceptedIsValidated(c, loads, outcomes[k].body, t.result.value);
      IndicesInRange();
      ExtractedNames(t.result.value.data);
    }
  }

  /** Corrected, three timeouts give `SolaxRequestError` after waits 0, 5 and 15. */
  lemma FetchThreeTimeouts(c: Coercions, loads: string -> Option<Json>, outcomes: seq<Attempt<Payload>>)
    requires InitialRetry <= |outcomes|
    requires outcomes[0].Timeout? && outcomes[1].Timeout? && outcomes[2].Timeout?
    ensures Fetch(c, loads, outcomes) == Raised(SolaxRequestError)
    ensures Request(Accept(c, loads), outcomes, InitialRetry, 0).waits == [0, 5, 15]
  {
    ThreeTimeoutsFail(Accept(c, loads), outcomes);
  }

  // ---------------------------------------------------------------------------
  // The endpoint.

  /** The unit of a sensor: `INVERTER_SENSORS[key][1]`. */
  function Unit(key: string): string
    requires key in Sensors
  {
    Sensors[key].1
  }

  /** The unit of each listed name is the one its entry gives. */
  lemma UnitOfEntry(i: nat)
    requires i < |Table|
    ensures Table[i].0 in Sensors && Unit(Table[i].0) == Table[i].1.1
  {
    NamesDistinct();
    DictOfEntries(Table);
  }

  /** Setup: one sensor per table entry. */
  method Setup() returns (e: Endpoint)
    ensures fresh(e) && e.Valid() && e.data == map[] && !e.ready
    ensures forall i :: 0 <= i < |e.sensors| ==> e.sensors[i].key in Sensors && e.sensors[i].value == None
    ensures forall k :: k in Sensors ==> exists i :: 0 <= i < |e.sensors| && e.sensors[i].key == k
    ensures |e.sensors| == |Sensors|
    ensures forall i :: 0 <= i < |e.sensors| ==> fresh(e.sensors[i])
  {
    e := new Endpoint(Sensors.Keys);
  }

  /** `RealTimeDataEndpoint.async_refresh`, with the corrected request. */
  method RefreshEndpoint(c: Coercions, loads: string -> Option<Json>, e: Endpoint, outcomes: seq<Attempt<Payload>>,
                         now: Option<Instant>) returns (sig: Signal)
    requires e.Valid() && InitialRetry <= |outcomes|
    modifies e, e.sensors
    ensures e.Valid()
    ensures e.Refreshed(Fetch(c, loads, outcomes), now, sig)
  {
    var t := RequestLoop(Accept(c, loads), outcomes, InitialRetry);
    var fetched: Outcome<Snapshot>;
    match t.result {
      case Returned(resp) => fetched := Parse(resp.data);
      case Raised(err) => fetched := Raised(err);
    }
    sig := e.Apply(fetched, now);
  }
}
