/** The refresh state machine the inverter and real-time platforms share: an
    endpoint holding the last snapshot, a `ready` flag and its sensors, and an
    `Inverter` entity per metric that shows the value the endpoint pushed to it. */
module Coordinator {
  import opened Wrappers
  import opened Errors
  import opened Json

  /** A metric snapshot: metric name to value. */
  type Snapshot = map<string, Reading>

  /** The scheduler's `now` argument; only whether it is given matters. */
  type Instant = int

  /** How a refresh ends for its caller. */
  datatype Signal =
    | Done                 // returned normally
    | PlatformNotReady     // startup poll (`now` is `None`) failed: `PlatformNotReady` is raised
    | Uncaught(e: Exc)     // an exception the refresh does not catch

  /** One sensor entity: `name` is its key, `state` its value. */
  class Sensor {
    const key: string
    var value: Option<Reading>

    constructor (key: string)
      ensures this.key == key && value == None
    {
      this.key := key;
      value := None;
    }

    function Name(): string { key }

    function State(): Option<Reading>
      reads this
    {
      value
    }
  }

  class Endpoint {
    var data: Snapshot
    var ready: bool
    const sensors: seq<Sensor>

    /** The sensors are distinct objects, and each sensor whose key is in the
        snapshot shows the snapshot's value. */
    ghost predicate Valid()
      reads this, sensors
    {
      (forall i, j :: 0 <= i < j < |sensors| ==> sensors[i] != sensors[j]) &&
      forall i :: 0 <= i < |sensors| && sensors[i].key in data ==> sensors[i].value == Some(data[sensors[i].key])
    }

    /** Setup: an empty snapshot, not ready, and a fresh sensor without a value per key. */
    constructor (keys: set<string>)
      ensures Valid() && data == map[] && !ready
      ensures |sensors| == |keys|
      ensures forall k :: k in keys <==> exists i :: 0 <= i < |sensors| && sensors[i].key == k
      ensures forall i :: 0 <= i < |sensors| ==> fresh(sensors[i]) && sensors[i].value == None
    {
      var made: seq<Sensor> := [];
      var rest := keys;
      while rest != {}
        invariant rest <= keys && |made| + |rest| == |keys|
        invariant forall k :: k in keys <==> k in rest || exists i :: 0 <= i < |made| && made[i].key == k
        invariant forall i :: 0 <= i < |made| ==> made[i].key !in rest
        invariant forall i :: 0 <= i < |made| ==> fresh(made[i]) && made[i].value == None
        invariant forall i, j :: 0 <= i < j < |made| ==> made[i] != made[j]
        decreases |rest|
      {
        var k :| k in rest;
        var s := new Sensor(k);
        ghost var before := made;
        made := made + [s];
        rest := rest - {k};
        assert made[|made| - 1].key == k;
        assert forall i :: 0 <= i < |before| ==> made[i] == before[i];
      }
      data, ready, sensors := map[], false, made;
    }

    /** Every sensor whose key is in the snapshot took the snapshot's value; the others kept theirs. */
    twostate predicate Pulled()
      reads this, sensors
    {
      forall i :: 0 <= i < |sensors| ==>
        sensors[i].value == if sensors[i].key in data then Some(data[sensors[i].key]) else old(sensors[i].value)
    }

    /** Nothing the endpoint or its sensors hold changed. */
    twostate predicate Untouched()
      reads this, sensors
    {
      data == old(data) && ready == old(ready) &&
      forall i :: 0 <= i < |sensors| ==> sensors[i].value == old(sensors[i].value)
    }

    /** What `async_refresh` does once the request and the parse inside its `try`
        have returned `fetched` or raised. */
    twostate predicate Refreshed(new fetched: Outcome<Snapshot>, now: Option<Instant>, sig: Signal)
      reads this, sensors
    {
      match fetched
      case Returned(m) => sig == Done && data == m && ready && Pulled()
      case Raised(SolaxRequestError) =>
        if now.Some? then sig == Done && data == old(data) && !ready && Pulled()
        else sig == PlatformNotReady && Untouched()
      case Raised(e) => sig == Uncaught(e) && Untouched()
    }

    /** `async_refresh` given what its `try` block produced. */
    method Apply(fetched: Outcome<Snapshot>, now: Option<Instant>) returns (sig: Signal)
      requires Valid()
      modifies this, sensors
      ensures Valid()
      ensures Refreshed(fetched, now, sig)
    {
      match fetched {
        case Returned(m) =>
          data, ready := m, true;
        case Raised(e) =>
          if e != SolaxRequestError {
            return Uncaught(e);
          }
          if now.None? {
            return PlatformNotReady;
          }
          ready := false;
      }
      var i := 0;
      while i < |sensors|
        invariant 0 <= i <= |sensors|
        invariant data == (if fetched.Returned? then fetched.value else old(data))
        invariant ready == fetched.Returned?
        invariant forall k :: 0 <= k < i ==>
          sensors[k].value == if sensors[k].key in data then Some(data[sensors[k].key]) else old(sensors[k].value)
        invariant forall k :: i <= k < |sensors| ==> sensors[k].value == old(sensors[k].value)
      {
        var s := sensors[i];
        if s.key in data {
          s.value := Some(data[s.key]);
        }
        i := i + 1;
      }
      sig := Done;
    }
  }
}
