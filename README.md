# Solax sensor platforms, modelled in Dafny

This project models three Home Assistant sensor platforms for Solax inverters:

- `solax_inverter.py` polls the Solax cloud's `InverterList` endpoint.
- `solax.py` polls the cloud's `BatteryList` endpoint.
- `solax_realtime.py` polls an inverter's local `realTimeData.htm`.

Each platform is built from the same four pieces, and the model keeps them apart:

- **Validation.** The voluptuous schemas become functions from a small `Json` datatype to `Valid(shaped value) | Invalid`. The host's coercing validators (`cv.string`, `vol.Coerce(float)`, `cv.positive_int`) are a `Coercions` record of abstract functions, so the model decides nothing about what they accept.
- **Request.** Each attempt's network result is an input sequence of `Timeout | ClientError | Received(body)`. The recursion on `(retry, wait_time)` is `Client.Request`. `Client.RequestLoop` is the same request as a bounded loop that records every wait it would use; its contract ties it to `Client.Request`.
- **Extraction.** There is one parse per platform:
  - the inverter parse filters items through an allow-list (a loop);
  - the battery parse reads five key codes, where the first match wins and an absent code gives `None`;
  - the real-time parse indexes a 68-number array through a name → (index, unit) table (a loop).

  The real-time text repair (`replace(",,", ",0.0,")` applied twice) is a string function with its own lemmas.
- **Refresh.** The endpoints are classes. `Coordinator.Endpoint` serves the inverter and real-time platforms, whose `async_refresh` loops are identical. `Battery.BatteryEndpoint` is separate because its sensors pull the value themselves in `async_update`. Each refresh method is proved against a two-state predicate `Refreshed`, which covers all four cases:
  - success: the snapshot is replaced and `ready` is set;
  - a scheduled failure (`now` given): `ready` is cleared and `data` is kept;
  - a startup failure: `PlatformNotReady`, and nothing is touched;
  - any other exception escapes, and nothing is touched.

  `Refreshed` also states what every sensor shows afterwards.

Modules are `Wrappers` and `Errors` (Option, the exception names, and `Outcome` = returned or raised), `Json`, `Client`, `Portal`, `Coordinator`, `Inverter`, `Battery` and `RealTime`.

Where the code is surprising, the model follows the code:

- **Items are strict.** The item schema `SOLAX_BATTERY_DATA` has no `extra=` setting, so voluptuous's default refuses an item with any key beyond `key`, `name`, `value` and `unit`. Only the outer schemas remove extra keys.
- **Lists may be empty.** The schemas accept empty lists. The parse then indexes `[0]` and raises `IndexError`, which `async_refresh` does not catch.
- **Inverter keys are a subset.** The inverter snapshot's keys are the allow-listed names that occur in the response, which can be fewer than the whole table.
- **Undefined names in the real-time retry.** A timeout of the real-time request with retries left reaches a call to names undefined in that file (see Findings).

## Model

| member | source | states |
|---|---|---|
| Json.ValidateList | dev-config/custom_components/sensor/solax_inverter.py:85-89 | a list schema `[v]` passes exactly when every item passes `v`; the result has one element per item, each what `v` made of it; the empty list passes |
| Json.ListOf | dev-config/custom_components/sensor/solax_inverter.py:85-89 | `[v]` on any document passes only for a list, and then as `ValidateList` |
| Portal.ValidateItem | dev-config/custom_components/sensor/solax_inverter.py:77-82 | an item is valid exactly when it is an object with exactly the keys key/name/value/unit, three string-coercible and `value` float-coercible; the item holds the coerced values |
| Portal.ValidateDataDict | dev-config/custom_components/sensor/solax_inverter.py:84-86 | `dataDict` is required and must be a list of valid items; the result keeps the item order and each item's coerced value |
| Portal.Decode | dev-config/custom_components/sensor/solax_inverter.py:121-122 | a body that is not JSON gives `NotJson`; a JSON body is accepted exactly when the schema passes it, and then with the schema's shaped value; a schema failure gives `SchemaInvalid` |
| Inverter.ValidateResponse | dev-config/custom_components/sensor/solax_inverter.py:88-90 | `INVERTER_SCHEMA` accepts exactly a `data` list of valid `dataDict` objects, element by element |
| Inverter.RefusesMissingOrUncoercible | dev-config/custom_components/sensor/solax_inverter.py:77-90 | a response without `data`, or with an item whose `value` cannot be coerced to a number, is refused |
| Inverter.Accept | dev-config/custom_components/sensor/solax_inverter.py:121-122 | `req.json()` then `INVERTER_SCHEMA`: `Portal.Decode` with `Inverter.ValidateResponse`; `Client.ReturnsOnlyAccepted` states that only its accepted values are ever returned |
| Client.Request | dev-config/custom_components/sensor/solax_inverter.py:109-136 | attempts 1 to max(retry, 1) times; the first wait is the given one and each next is `2*w+5`; every attempt before the last timed out; the last attempt decides the result (accepted body → returned, everything else → `SolaxRequestError`, a timeout only when the budget is used up) |
| Client.RequestLoop | dev-config/custom_components/sensor/solax_inverter.py:109-136 | the loop carrying `(retry, wait_time)` gives the same result and the same recorded waits as the recursion |
| Client.DefaultWaits | dev-config/custom_components/sensor/solax_inverter.py:113-125 | with `retry = 3` there are at most three attempts and the waits are a prefix of 0, 5, 15 |
| Client.ThreeTimeoutsFail | dev-config/custom_components/sensor/solax_inverter.py:123-136 | three timeouts give `SolaxRequestError` after waits exactly 0, 5, 15 |
| Client.NoRetryUnlessTimeout | dev-config/custom_components/sensor/solax_inverter.py:127-136 | a first attempt that is not a timeout ends the request after one attempt; it returns iff the body was received and accepted, otherwise it raises `SolaxRequestError` |
| Client.ReturnsOnlyAccepted | dev-config/custom_components/sensor/solax_inverter.py:115-136 | the only exception a request raises is `SolaxRequestError`; a returned value is what the schema made of some received body |
| Client.WaitsClosedForm | dev-config/custom_components/sensor/solax_inverter.py:113 | the i-th wait of a request started at 0 is 5·(2^i − 1) |
| Inverter.ExtractedKeys | dev-config/custom_components/sensor/solax_inverter.py:138-146 | the parse's keys are exactly the allow-listed names occurring among the items |
| Inverter.ExtractedLastWins | dev-config/custom_components/sensor/solax_inverter.py:141-145 | for a name occurring several times, the result holds the value of its last occurrence |
| Inverter.UnknownNameDropped | dev-config/custom_components/sensor/solax_inverter.py:142-144 | an unknown name `Foo` next to `PV1 Current` yields only `{PV1 Current: value}` |
| Inverter.BmsLostKept | dev-config/custom_components/sensor/solax_inverter.py:142-145 | `BMS Lost`, whose unit is `None`, is still kept by the parse |
| Inverter.Extracted | dev-config/custom_components/sensor/solax_inverter.py:139-146 | the map the loop builds over `dataDict`; `ExtractedKeys`, `ExtractedLastWins`, `UnknownNameDropped` and `BmsLostKept` state its keys and values |
| Inverter.Parsed | dev-config/custom_components/sensor/solax_inverter.py:138-146 | the parse raises exactly on an empty `data`, and then only `IndexError`; otherwise it is the extraction of `data[0]`'s `dataDict` |
| Inverter.Parse | dev-config/custom_components/sensor/solax_inverter.py:138-146 | the loop over `dataDict` builds the allow-list extraction of `data[0]`, raises `IndexError` on an empty `data`, and only allow-listed keys appear |
| Inverter.ThreeTimeoutsCaught | dev-config/custom_components/sensor/solax_inverter.py:166-170 | three timeouts make the refresh's `try` raise `SolaxRequestError`, which it catches |
| Inverter.Fetch | dev-config/custom_components/sensor/solax_inverter.py:166-168 | the request with `retry = 3` followed by the parse; `ThreeTimeoutsCaught` and `FetchOutcomes` state its outcomes |
| Inverter.FetchOutcomes | dev-config/custom_components/sensor/solax_inverter.py:166-170 | the refresh's `try` yields a snapshot of allow-listed names, or raises `SolaxRequestError` or, for an empty `data`, `IndexError` |
| Inverter.Unit | dev-config/custom_components/sensor/solax_inverter.py:194-197 | `unit_of_measurement` is the table's entry for the key; `UnitsOfTable` states which entries are present |
| Inverter.UnitsOfTable | dev-config/custom_components/sensor/solax_inverter.py:194-197 | the unit is the table's entry: present for every allow-listed name but `BMS Lost`, whose unit is `None` |
| Inverter.Setup | dev-config/custom_components/sensor/solax_inverter.py:97-106 | setup creates a fresh endpoint, empty and not ready, with exactly as many sensors as table names, each fresh, without a value, holding a table name, and every table name held by some sensor |
| Inverter.RefreshEndpoint | dev-config/custom_components/sensor/solax_inverter.py:161-178 | `async_refresh` (request, parse, state update, sensor loop) ends in the state `Refreshed` describes for the fetched outcome |
| Coordinator.Endpoint.constructor | dev-config/custom_components/sensor/solax_inverter.py:102-105 | one distinct fresh sensor per key, none with a value; empty snapshot, not ready |
| Coordinator.Endpoint.Apply | dev-config/custom_components/sensor/solax_inverter.py:166-178 | success replaces `data` and sets `ready`; a scheduled failure clears `ready` and keeps `data`; a startup failure gives `PlatformNotReady` and touches nothing; another exception escapes and touches nothing; after a non-raising refresh each sensor whose key is in `data` shows `data[key]` and every other sensor keeps its value; the sensors-show-snapshot invariant is kept |
| Coordinator.Sensor.constructor | dev-config/custom_components/sensor/solax_inverter.py:182-184 | a new inverter or real-time sensor holds its key and no value; its unit is `Inverter.Unit` or `RealTime.Unit` of that key |
| Coordinator.Sensor.Name | dev-config/custom_components/sensor/solax_inverter.py:190-192 | `name` is the sensor's key (a field read, no contract of its own) |
| Coordinator.Sensor.State | dev-config/custom_components/sensor/solax_inverter.py:186-188 | `state` is the sensor's current value (a field read, no contract of its own); `Endpoint.Apply` states what it is after each refresh |
| Battery.ValidateSite | dev-config/custom_components/sensor/solax.py:57-59 | `SOLAX_DATA_SCHEMA` accepts exactly a `batList` list of valid `dataDict` objects |
| Battery.ValidateResponse | dev-config/custom_components/sensor/solax.py:61-63 | `BATTERY_SCHEMA` accepts exactly the `data` → `batList` → `dataDict` nesting of valid items |
| Battery.Accept | dev-config/custom_components/sensor/solax.py:95-96 | `req.json()` then `BATTERY_SCHEMA`: `Portal.Decode` with `Battery.ValidateResponse` |
| Battery.FirstMatch | dev-config/custom_components/sensor/solax.py:115-116 | `extract(key)` is `None` iff no item has the key, and otherwise the value of the first item that has it |
| Battery.Extract | dev-config/custom_components/sensor/solax.py:117-128 | the five-key dict literal; `ExtractKeys` states its keys are exactly the five names and `ExtractValues` that each holds the first match of its code |
| Battery.NamesDistinct | dev-config/custom_components/sensor/solax.py:28-34 | the five metric names are pairwise distinct |
| Battery.ExtractKeys | dev-config/custom_components/sensor/solax.py:122-128 | the dict literal has exactly the five metric names as keys |
| Battery.ExtractValues | dev-config/custom_components/sensor/solax.py:117-128 | each metric name holds the first-match value of its key code `b1_1` … `b1_5` |
| Battery.Parse | dev-config/custom_components/sensor/solax.py:113-128 | reads `data[0].batList[0].dataDict`; `ParseResult` states when it raises and what it returns |
| Battery.ParseResult | dev-config/custom_components/sensor/solax.py:113-128 | the parse reads only `data[0].batList[0]`, raises `IndexError` exactly when one of those lists is empty, and otherwise returns exactly the five names with their first-match values |
| Battery.Fetch | dev-config/custom_components/sensor/solax.py:148-150 | the request with `retry = 3` followed by the parse; `ThreeTimeoutsCaught` and `FirstFailureNotRetried` state its failures |
| Battery.ThreeTimeoutsCaught | dev-config/custom_components/sensor/solax.py:148-157 | three timeouts make the refresh's `try` raise `SolaxRequestError` |
| Battery.FirstFailureNotRetried | dev-config/custom_components/sensor/solax.py:97-111 | a client error, a non-JSON body or a schema failure on the first attempt raises `SolaxRequestError` after that single attempt (waits `[0]`) |
| Battery.UnitsCoverNames | dev-config/custom_components/sensor/solax.py:177-186 | the unit table covers exactly the five metric names; Temperature's unit is °C |
| Battery.Sensor.constructor | dev-config/custom_components/sensor/solax.py:163-166 | a new battery sensor holds its endpoint and key and no value |
| Battery.Sensor.Name | dev-config/custom_components/sensor/solax.py:173-175 | `name` is the sensor's key (a field read, no contract of its own) |
| Battery.Sensor.State | dev-config/custom_components/sensor/solax.py:168-171 | `state` is the sensor's current value (a field read, no contract of its own); `Sensor.Update` states what it becomes |
| Battery.Sensor.Unit | dev-config/custom_components/sensor/solax.py:177-186 | `unit_of_measurement` looks the key up in the fixed unit table; `UnitsCoverNames` states that the table covers exactly the five names |
| Battery.Sensor.Update | dev-config/custom_components/sensor/solax.py:188-193 | `async_update` sets the value to `data[key]` only when the endpoint is ready and has the key, and otherwise keeps it; the endpoint's invariant is kept |
| Battery.BatteryEndpoint.Apply | dev-config/custom_components/sensor/solax.py:148-159 | success replaces `data` and sets `ready`; a scheduled failure clears `ready` and keeps `data` and every sensor value; a startup failure gives `PlatformNotReady`; after the forced updates each sensor shows the ready snapshot's value for its key |
| Battery.BatteryEndpoint.Refresh | dev-config/custom_components/sensor/solax.py:143-159 | `async_refresh` (request, parse, state update, forced sensor updates) ends in the state `Refreshed` describes for the fetched outcome |
| Battery.BatteryEndpoint.constructor | dev-config/custom_components/sensor/solax.py:134-141 | a new endpoint has an empty snapshot, is not ready, has no sensors yet, and `Valid()` holds |
| Battery.Setup | dev-config/custom_components/sensor/solax.py:70-80 | setup creates the five sensors in table order, each fresh, bound to the endpoint, without a value, with pairwise distinct keys (by `NamesDistinct`) |
| RealTime.DictOfEntries | dev-config/custom_components/sensor/solax_realtime.py:28-60 | a dict display with distinct names holds exactly the listed names, each with its own entry |
| RealTime.NamesDistinct | dev-config/custom_components/sensor/solax_realtime.py:28-60 | the display lists no sensor name twice |
| RealTime.IndicesIncrease | dev-config/custom_components/sensor/solax_realtime.py:28-60 | the indices grow strictly along the display |
| RealTime.IndicesInRange | dev-config/custom_components/sensor/solax_realtime.py:28-60 | every table index is below 68, the length the schema demands |
| RealTime.IndicesDistinct | dev-config/custom_components/sensor/solax_realtime.py:28-60 | no two sensor names read the same slot of `Data` |
| RealTime.FillOnce | dev-config/custom_components/sensor/solax_realtime.py:109 | one `str.replace(",,", ",0.0,")` pass, left to right and without overlaps; the `FillOnce…` lemmas state what a pass does |
| RealTime.Repair | dev-config/custom_components/sensor/solax_realtime.py:109 | the two passes; `RepairClears`, `RepairIdentity` and `RepairThreeCommas` state what they achieve |
| RealTime.FillOnceStart | dev-config/custom_components/sensor/solax_realtime.py:109 | a replace pass never shortens the text, keeps its first character and never starts with `,,` |
| RealTime.FillOnceNoTriple | dev-config/custom_components/sensor/solax_realtime.py:109 | after one replace pass no three commas follow each other |
| RealTime.FillOnceClearsPairs | dev-config/custom_components/sensor/solax_realtime.py:109 | a pass over text without three commas in a row leaves no `,,` |
| RealTime.FillOnceIdentity | dev-config/custom_components/sensor/solax_realtime.py:109 | a pass leaves text without `,,` unchanged |
| RealTime.RepairClears | dev-config/custom_components/sensor/solax_realtime.py:109 | after both passes the text contains no `,,` |
| RealTime.RepairIdentity | dev-config/custom_components/sensor/solax_realtime.py:109 | text without `,,` passes the repair unchanged |
| RealTime.RepairThreeCommas | dev-config/custom_components/sensor/solax_realtime.py:109 | on `,,,` one pass still leaves a `,,`, and the second pass removes it |
| RealTime.DataList | dev-config/custom_components/sensor/solax_realtime.py:76 | `Data` passes exactly when it is a list of float-coercible items, and the result holds the coerced values in order |
| RealTime.ValidateResponse | dev-config/custom_components/sensor/solax_realtime.py:71-78 | the schema accepts exactly a document with string `method`, `version`, `type` and `SN`, a `Data` list of exactly 68 float-coercible items and a positive-integer `Status`; the result keeps those six fields and nothing else |
| RealTime.Accept | dev-config/custom_components/sensor/solax_realtime.py:107-111 | UTF-8 decoding, the repair, `json.loads` and `REAL_TIME_DATA_SCHEMA`, in that order; `AcceptedIsValidated` states what an accepted body is |
| RealTime.AcceptedIsValidated | dev-config/custom_components/sensor/solax_realtime.py:108-111 | an accepted body was UTF-8 text that, once repaired and loaded, passed the schema, so its `Data` has 68 numbers |
| RealTime.RequestAsWritten | dev-config/custom_components/sensor/solax_realtime.py:97-125 | the request as written: one attempt, with `NameError` on a timeout while `retry` stays positive; `AsWrittenNeverRetries` states how it differs from the retrying request |
| RealTime.AsWrittenNeverRetries | dev-config/custom_components/sensor/solax_realtime.py:112-114 | as written the request makes exactly one attempt; without a first timeout it equals the retrying request, and a first timeout with retries left raises `NameError` where the retrying request makes a second attempt |
| RealTime.AsWrittenTimeoutEscapes | dev-config/custom_components/sensor/solax_realtime.py:112-114 | as written, a first timeout makes the refresh's `try` raise `NameError`, which it does not catch |
| RealTime.Extracted | dev-config/custom_components/sensor/solax_realtime.py:127-133 | every table name mapped to its slot of `Data`, or `IndexError`; `ExtractedNames` states both cases |
| RealTime.ExtractedNames | dev-config/custom_components/sensor/solax_realtime.py:127-133 | the parse returns iff every index is inside `Data`, fails otherwise with `IndexError`, and maps exactly the table names, each to `Data[index]` |
| RealTime.Parse | dev-config/custom_components/sensor/solax_realtime.py:127-133 | the loop over the table computes that parse |
| RealTime.ValidatedParses | dev-config/custom_components/sensor/solax_realtime.py:127-133 | a validated response always parses: every table name, each mapped to its coerced slot of `Data` |
| RealTime.Fetch | dev-config/custom_components/sensor/solax_realtime.py:152-153 | the corrected request with `retry = 3` followed by the parse; `FetchCaughtOrComplete` and `FetchThreeTimeouts` state its outcomes |
| RealTime.FetchAsWritten | dev-config/custom_components/sensor/solax_realtime.py:152-153 | the request as written followed by the parse; `AsWrittenTimeoutEscapes` states its timeout case |
| RealTime.FetchCaughtOrComplete | dev-config/custom_components/sensor/solax_realtime.py:152-154 | with the corrected request, the refresh's `try` either yields a snapshot of exactly the 24 table names or raises `SolaxRequestError` |
| RealTime.FetchThreeTimeouts | dev-config/custom_components/sensor/solax_realtime.py:152-154 | with the corrected request, three timeouts give `SolaxRequestError` after waits 0, 5, 15 |
| RealTime.UnitOfEntry | dev-config/custom_components/sensor/solax_realtime.py:180-183 | a sensor's unit is the second component of its table entry |
| RealTime.Unit | dev-config/custom_components/sensor/solax_realtime.py:180-183 | `unit_of_measurement` is the second component of the key's table entry, as `UnitOfEntry` states |
| RealTime.Setup | dev-config/custom_components/sensor/solax_realtime.py:85-94 | setup creates a fresh endpoint, empty and not ready, with exactly as many sensors as table names, each fresh, without a value, holding a table name, and every table name held by some sensor |
| RealTime.RefreshEndpoint | dev-config/custom_components/sensor/solax_realtime.py:147-164 | `async_refresh` with the corrected request ends in the state `Refreshed` describes for the fetched outcome |

## Left out

- HTTP, sessions, `async_timeout` and `req.json()`. Each attempt's result is an input (`Client.Attempt`, with `Portal.Body` or `RealTime.Payload` as the body).
- UTF-8 decoding. `RealTime.Payload` says only whether the bytes decoded.
- `json.loads`. It is the abstract parameter `loads` of the real-time platform.
- The internals of `cv.string`, `vol.Coerce(float)` and `cv.positive_int`. They are the abstract functions of `Json.Coercions`. Metric values are plain `real` numbers that nothing computes on.
- `asyncio.sleep`. It is never awaited in the source, so the waits appear only as computed values in `Client.Trace`.
- Logging, and the extra log statements of the battery platform.
- The scheduler and the entity lifecycle: `async_track_time_interval`, `async_add_job`, `async_add_entities` and `should_poll`. `async_schedule_update_ha_state` is a no-op for the inverter and real-time sensors. For the battery sensors it runs `async_update` at once, inside the refresh.
- Concurrency. Polls do not overlap in the model, and the `asyncio.Event` `ready` is a `bool`.
- Setup order of the inverter and real-time sensors. They are created from the table's key set in an unspecified order, where Python follows insertion order; their sensor list is fixed at construction, where the source assigns `endpoint.sensors` after it.
- RealTime.Parse: the loop visits the table's names in an unspecified order rather than insertion order. Its result, including which inputs raise `IndexError`, does not depend on the order.
- Client.Request and the functions that call it require an input outcome for every attempt the budget allows (`MaxAttempts(retry) <= |outcomes|`). This is a modelling requirement, not one of the source.
- The platform configuration schemas (`PLATFORM_SCHEMA` with `CONF_ID`/`CONF_TOKEN`/`CONF_IP_ADDRESS`) and the endpoint URLs.
- `homeassistant/components/solax/__init__.py` and `config_flow.py`: host registration, config-entry storage and the config-flow UI are not part of this model.
- `name` and `state` of the sensors are plain field reads (`Sensor.Name`, `Sensor.State`), with no contract of their own.

## Findings

| source | as written | input that shows it | evidently intended | confidence | as-written member | corrected member |
|---|---|---|---|---|---|---|
| dev-config/custom_components/sensor/solax_realtime.py:112-114 | on a timeout with `retry` still positive, the real-time request calls `async_solax_dashboard_request(hass, schema, solax_id, token, …)`, none of which is defined in that file, so it raises `NameError`; `async_refresh` catches only `SolaxRequestError`, so the error escapes, and the request is never retried | first attempt times out, `retry = 3` | retry with `async_solax_real_time_request(hass, schema, ip_address, retry, new_wait)` like the cloud platforms, ending in `SolaxRequestError` after three timeouts | high (not executed) | RealTime.AsWrittenTimeoutEscapes | RealTime.FetchThreeTimeouts |
