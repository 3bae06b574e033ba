/** The ingestion normaliser: the sensor-value classification and the
    all-or-nothing store of one device payload. The TCP consumer
    (`store_sensor_data`) and the MQTT bridge (`_handle_device_data`) carry
    two identical copies of this logic; the model has one, used by both. */
module Ingest {
  import opened Wrappers
  import opened Json
  import opened Devices

  /** Python's `str(v)` of a JSON value that is not a string (the text of a
      list, a dict or `None`); a parameter of the model. */
  type PyStr = Json -> string

  /** `str(v)`: a string is itself, anything else is rendered by `pyStr`. */
  function StrOf(v: Json, pyStr: PyStr): string {
    if v.JStr? then v.s else pyStr(v)
  }

  /** The text a `CharField` stores for `v` (`str(v)` for a value that is
      not already a string); `None` for JSON `null`, which the non-null
      `status` column rejects with an integrity error. */
  function StatusValue(v: Json, pyStr: PyStr): (r: Option<string>)
    ensures r.None? <==> v.JNull?
    ensures v.JStr? ==> r == Some(v.s)
  {
    if v.JNull? then None else Some(StrOf(v, pyStr))
  }

  /** One new reading for `sensor` holding `v`: the `isinstance(v, (int,
      float))` test comes first, so numbers AND booleans land in the float
      slot; everything else is stringified. The boolean slot is never
      written. */
  function Classify(sensor: Sensor, pk: nat, v: Json, now: int, pyStr: PyStr): (sd: SensorData)
    ensures SingleSlot(sd) && sd.valueBool.None?
    ensures sd.valueFloat.Some? <==> IsIntOrFloat(v)
    ensures v.JBool? ==> sd.valueFloat.value.Value() == (if v.b then 1.0 else 0.0)
    ensures v.JStr? ==> sd.valueString == Some(v.s)
    ensures IsIntOrFloat(v) ==> sd.valueFloat == Some(NumberValue(v))
    ensures !IsIntOrFloat(v) ==> sd.valueString == Some(StrOf(v, pyStr))
    ensures sd.sensor == sensor && sd.pk == pk && sd.timestamp == now
  {
    if IsIntOrFloat(v) then SensorData(pk, sensor, now, Some(NumberValue(v)), None, None)
    else SensorData(pk, sensor, now, None, Some(StrOf(v, pyStr)), None)
  }

  /** Why a payload could not be normalised. */
  datatype IngestError =
    | NotAContainer     // `key in payload` raised TypeError (number, boolean, null)
    | NotAMapping       // `payload[key]` raised TypeError (list or string)

  /** The sensors of the device, in store order, whose value key is a member
      of the object payload. */
  function KeyedSensors(sensors: seq<Sensor>, device: nat, fields: seq<Field>): (r: seq<Sensor>)
    ensures forall k :: 0 <= k < |r| ==>
              r[k] in sensors && r[k].device == device && HasKey(fields, r[k].valueKey)
    ensures forall s :: s in sensors && s.device == device && HasKey(fields, s.valueKey) ==> s in r
    ensures |r| <= |sensors|
  {
    if |sensors| == 0 then []
    else
      var s := sensors[0];
      var rest := KeyedSensors(sensors[1..], device, fields);
      assert forall x :: x in sensors <==> x == s || x in sensors[1..] by {
        assert sensors == [s] + sensors[1..];
      }
      if s.device == device && HasKey(fields, s.valueKey) then [s] + rest else rest
  }

  /** The keyed sensors keep store order: those of a concatenation are the
      keyed sensors of the first part followed by those of the second. */
  lemma {:induction false} KeyedSensorsAppend(a: seq<Sensor>, b: seq<Sensor>, device: nat, fields: seq<Field>)
    ensures KeyedSensors(a + b, device, fields) == KeyedSensors(a, device, fields) + KeyedSensors(b, device, fields)
  {
    if |a| == 0 {
      assert a + b == b;
    } else {
      assert (a + b)[1..] == a[1..] + b;
      KeyedSensorsAppend(a[1..], b, device, fields);
    }
  }

  /** The loop `for sensor in Sensor.objects.filter(device=device): if
      sensor.value_key in data: ...`, producing the new readings numbered
      from `nextPk`. Only an object payload is certain to get through; for
      anything else the first membership test or index that raises aborts
      the whole payload. */
  function Normalize(sensors: seq<Sensor>, device: nat, payload: Json, nextPk: nat,
                     now: int, pyStr: PyStr): (r: Result<seq<SensorData>, IngestError>)
    ensures payload.JObj? ==> r.Ok?
    ensures r.Err? <==> !payload.JObj? && exists k :: 0 <= k < |sensors| && sensors[k].device == device
                                                && PyIn(sensors[k].valueKey, payload) != Some(false)
    ensures r.Ok? ==> forall k :: 0 <= k < |r.value| ==>
              SingleSlot(r.value[k]) && r.value[k].valueBool.None?
              && r.value[k].pk == nextPk + k && r.value[k].timestamp == now
              && r.value[k].sensor.device == device
    ensures r.Ok? && payload.JObj? ==>
              |r.value| == |KeyedSensors(sensors, device, payload.fields)|
              && forall k :: 0 <= k < |r.value| ==>
                   var s := KeyedSensors(sensors, device, payload.fields)[k];
                   r.value[k] == Classify(s, nextPk + k, Get(payload.fields, s.valueKey).value, now, pyStr)
    ensures r.Ok? && !payload.JObj? ==> r.value == []
  {
    if |sensors| == 0 then Ok([])
    else
      var s := sensors[0];
      if s.device != device || PyIn(s.valueKey, payload) == Some(false) then
        var r := Normalize(sensors[1..], device, payload, nextPk, now, pyStr);
        SkipRaises(sensors, device, payload);
        SkipKeyed(sensors, device, payload);
        r
      else
        match PyIn(s.valueKey, payload)
        case None => Err(NotAContainer)
        case Some(_) =>
          match PyIndex(payload, s.valueKey)
          case None => Err(NotAMapping)
          case Some(v) =>
            var first := Classify(s, nextPk, v, now, pyStr);
            match Normalize(sensors[1..], device, payload, nextPk + 1, now, pyStr)
            case Err(e) => Err(e)
            case Ok(rest) =>
              assert sensors[0].device == device && PyIn(sensors[0].valueKey, payload) != Some(false);
              ConsReadings(first, rest, device, nextPk, now);
              if payload.JObj? then
                KeptKeyed(sensors, device, payload.fields);
                ConsClassified(KeyedSensors(sensors, device, payload.fields), KeyedSensors(sensors[1..], device, payload.fields),
                               payload.fields, first, rest, nextPk, now, pyStr);
                Ok([first] + rest)
              else Ok([first] + rest)
  }

  /** A sensor the loop passes over without raising changes neither whether
      the payload raises nor which sensors it keys. */
  lemma SkipRaises(sensors: seq<Sensor>, device: nat, payload: Json)
    requires |sensors| > 0 && (sensors[0].device != device || PyIn(sensors[0].valueKey, payload) == Some(false))
    ensures (exists k :: 0 <= k < |sensors| && sensors[k].device == device
                         && PyIn(sensors[k].valueKey, payload) != Some(false))
        <==> (exists k :: 0 <= k < |sensors[1..]| && sensors[1..][k].device == device
                         && PyIn(sensors[1..][k].valueKey, payload) != Some(false))
  {
    if exists k :: 0 <= k < |sensors| && sensors[k].device == device && PyIn(sensors[k].valueKey, payload) != Some(false) {
      var k :| 0 <= k < |sensors| && sensors[k].device == device && PyIn(sensors[k].valueKey, payload) != Some(false);
      assert k > 0 && sensors[1..][k - 1] == sensors[k];
    }
    if exists k :: 0 <= k < |sensors[1..]| && sensors[1..][k].device == device && PyIn(sensors[1..][k].valueKey, payload) != Some(false) {
      var k :| 0 <= k < |sensors[1..]| && sensors[1..][k].device == device && PyIn(sensors[1..][k].valueKey, payload) != Some(false);
      assert sensors[k + 1] == sensors[1..][k];
    }
  }

  /** A sensor the loop passes over is not among the keyed ones. */
  lemma SkipKeyed(sensors: seq<Sensor>, device: nat, payload: Json)
    requires |sensors| > 0 && (sensors[0].device != device || PyIn(sensors[0].valueKey, payload) == Some(false))
    ensures payload.JObj? ==> KeyedSensors(sensors, device, payload.fields) == KeyedSensors(sensors[1..], device, payload.fields)
  {
  }

  /** A sensor of the device whose key the payload has heads the keyed ones. */
  lemma KeptKeyed(sensors: seq<Sensor>, device: nat, fields: seq<Field>)
    requires |sensors| > 0 && sensors[0].device == device && HasKey(fields, sensors[0].valueKey)
    ensures KeyedSensors(sensors, device, fields) == [sensors[0]] + KeyedSensors(sensors[1..], device, fields)
  {
  }

  /** Numbering the first new reading `nextPk` and the rest from `nextPk + 1`
      numbers them all consecutively. */
  lemma ConsReadings(first: SensorData, rest: seq<SensorData>, device: nat, nextPk: nat, now: int)
    requires SingleSlot(first) && first.valueBool.None? && first.pk == nextPk && first.timestamp == now
             && first.sensor.device == device
    requires forall k :: 0 <= k < |rest| ==>
               SingleSlot(rest[k]) && rest[k].valueBool.None?
               && rest[k].pk == nextPk + 1 + k && rest[k].timestamp == now && rest[k].sensor.device == device
    ensures forall k :: 0 <= k < |[first] + rest| ==>
              SingleSlot(([first] + rest)[k]) && ([first] + rest)[k].valueBool.None?
              && ([first] + rest)[k].pk == nextPk + k && ([first] + rest)[k].timestamp == now
              && ([first] + rest)[k].sensor.device == device
  {
    forall k | 0 <= k < |[first] + rest|
      ensures SingleSlot(([first] + rest)[k]) && ([first] + rest)[k].pk == nextPk + k
    {
      if k > 0 { assert ([first] + rest)[k] == rest[k - 1]; }
    }
  }

  /** The readings follow the keyed sensors one for one. */
  lemma ConsClassified(keyed: seq<Sensor>, tail: seq<Sensor>, fields: seq<Field>, first: SensorData,
                       rest: seq<SensorData>, nextPk: nat, now: int, pyStr: PyStr)
    requires |keyed| > 0 && keyed == [keyed[0]] + tail
    requires forall k :: 0 <= k < |keyed| ==> HasKey(fields, keyed[k].valueKey)
    requires forall k :: 0 <= k < |tail| ==> HasKey(fields, tail[k].valueKey)
    requires first == Classify(keyed[0], nextPk, Get(fields, keyed[0].valueKey).value, now, pyStr)
    requires |rest| == |tail|
    requires forall k :: 0 <= k < |rest| ==>
               rest[k] == Classify(tail[k], nextPk + 1 + k, Get(fields, tail[k].valueKey).value, now, pyStr)
    ensures |[first] + rest| == |keyed|
    ensures forall k :: 0 <= k < |[first] + rest| ==>
              ([first] + rest)[k] == Classify(keyed[k], nextPk + k, Get(fields, keyed[k].valueKey).value, now, pyStr)
  {
    forall k | 0 <= k < |[first] + rest|
      ensures ([first] + rest)[k] == Classify(keyed[k], nextPk + k, Get(fields, keyed[k].valueKey).value, now, pyStr)
    {
      if k > 0 {
        assert ([first] + rest)[k] == rest[k - 1];
        assert keyed[k] == tail[k - 1];
      }
    }
  }

  /** The outcome of one `transaction.atomic()` block of ingestion. */
  datatype Stored = Stored(db: Db, created: seq<SensorData>, ok: bool)

  /** Stores one payload for the device at position `k`: the device goes
      `online` with `last_seen = now` and the new readings are appended, or,
      when the database write fails (`fails`) or normalisation raises, the
      transaction rolls back and the store does not change. */
  function Store(db: Db, k: nat, payload: Json, now: int, pyStr: PyStr, fails: bool): (r: Stored)
    requires k < |db.devices|
    ensures r.ok <==> !fails && Normalize(db.sensors, db.devices[k].pk, payload, |db.readings|, now, pyStr).Ok?
    ensures !r.ok ==> r.db == db && r.created == []
    ensures |r.db.devices| == |db.devices|
    ensures r.ok ==> r.created == Normalize(db.sensors, db.devices[k].pk, payload, |db.readings|, now, pyStr).value
    ensures r.ok ==> r.db == SetStatus(db, k, Online, now).(readings := db.readings + r.created)
  {
    if fails then Stored(db, [], false)
    else
      match Normalize(db.sensors, db.devices[k].pk, payload, |db.readings|, now, pyStr)
      case Err(_) => Stored(db, [], false)
      case Ok(created) =>
        var db1 := SetStatus(db, k, Online, now);
        Stored(db1.(readings := db.readings + created), created, true)
  }
}
