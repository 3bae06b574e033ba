/** The device registry entities and the part of the persistence store the
    core touches: devices with their status, sensors with their value keys,
    actuators, and the append-only sensor readings. */
module Devices {
  import opened Wrappers
  import opened Json

  const Online := "online"
  const Offline := "offline"
  const Unregistered := "unregistered"

  /** The values of `Device.STATUS_CHOICES`. */
  predicate IsStatusChoice(s: string) {
    s == Online || s == Offline || s == Unregistered
  }

  datatype Project = Project(pk: nat, name: string, owner: nat)

  datatype Device = Device(
    pk: nat,
    deviceId: string,        // unique, e.g. "DEV-YYYYYY"
    identifier: string,      // unique, e.g. a MAC address
    key: string,             // the device secret
    name: string,
    project: nat,
    status: string,
    lastSeen: Option<int>,
    protocol: string)

  /** `value_key` names the member of a device payload that carries the
      sensor's value. */
  datatype Sensor = Sensor(pk: nat, device: nat, name: string, sensorType: string, valueKey: string)

  datatype Actuator = Actuator(pk: nat, device: nat, name: string, commandKey: string)

  /** One stored reading; `timestamp` is the store's clock at insertion. */
  datatype SensorData = SensorData(
    pk: nat,
    sensor: Sensor,
    timestamp: int,
    valueFloat: Option<Decimal>,
    valueString: Option<string>,
    valueBool: Option<bool>)

  /** Exactly one of the three value slots is filled. */
  predicate SingleSlot(sd: SensorData) {
    (if sd.valueFloat.Some? then 1 else 0) + (if sd.valueString.Some? then 1 else 0)
      + (if sd.valueBool.Some? then 1 else 0) == 1
  }

  /** A device as registered: status and protocol take their field defaults
      and it has never been seen. */
  function NewDevice(pk: nat, deviceId: string, identifier: string, key: string,
                     name: string, project: nat): (d: Device)
    ensures IsStatusChoice(d.status) && d.status == Unregistered
    ensures d.lastSeen.None?
    ensures d.deviceId == deviceId && d.key == key
  {
    Device(pk, deviceId, identifier, key, name, project, Unregistered, None, "mqtt")
  }

  /** `uuid.uuid4().hex`: 32 lower-case hexadecimal digits. */
  predicate IsUuidHex(s: string) {
    |s| == 32 && forall k :: 0 <= k < |s| ==> ('0' <= s[k] <= '9' || 'a' <= s[k] <= 'f')
  }

  /** `Device.save`: an empty key is replaced by a fresh one before the row
      is written; a key that is already set is kept. */
  function SaveDevice(d: Device, freshKey: string): (r: Device)
    requires IsUuidHex(freshKey)
    ensures r.key != ""
    ensures d.key != "" ==> r == d
    ensures r == d.(key := r.key)
  {
    if d.key == "" then d.(key := freshKey) else d
  }

  /** The rows of the store the ingestion path reads and writes. Sensors are
      listed in the store's query order for `Sensor` (device, then name). */
  datatype Db = Db(devices: seq<Device>, sensors: seq<Sensor>, readings: seq<SensorData>)

  /** The `unique=True` constraints on `device_id` and `device_identifier`. */
  predicate UniqueDevices(devices: seq<Device>) {
    forall i, j :: 0 <= i < j < |devices| ==>
      devices[i].deviceId != devices[j].deviceId && devices[i].identifier != devices[j].identifier
  }

  /** `Device.objects.get(device_id=deviceId)`: the position of the device, or
      `None` for `DoesNotExist`. */
  function FindDevice(devices: seq<Device>, deviceId: string): (r: Option<nat>)
    ensures r.Some? ==> r.value < |devices| && devices[r.value].deviceId == deviceId
    ensures r.Some? ==> forall j :: 0 <= j < r.value ==> devices[j].deviceId != deviceId
    ensures r.None? <==> forall k :: 0 <= k < |devices| ==> devices[k].deviceId != deviceId
  {
    if |devices| == 0 then None
    else if devices[0].deviceId == deviceId then Some(0)
    else
      match FindDevice(devices[1..], deviceId)
      case None => None
      case Some(k) => Some(k + 1)
  }

  /** Under the uniqueness constraint the device found is the only one with
      that `device_id`. */
  lemma FindDeviceIsTheOnlyMatch(devices: seq<Device>, deviceId: string, k: nat)
    requires UniqueDevices(devices)
    requires k < |devices| && devices[k].deviceId == deviceId
    ensures FindDevice(devices, deviceId) == Some(k)
  {
    var r := FindDevice(devices, deviceId);
    assert r.Some?;
  }

  /** `Device.objects.get(device_id=.., device_key=..)`: the device with
      both the id and the key, if there is one. */
  function FindByCredentials(devices: seq<Device>, deviceId: string, key: string): (r: Option<nat>)
    ensures r.Some? ==> r.value < |devices| && devices[r.value].deviceId == deviceId
                        && devices[r.value].key == key
    ensures r.None? <==> forall k :: 0 <= k < |devices| ==>
                                    !(devices[k].deviceId == deviceId && devices[k].key == key)
  {
    if |devices| == 0 then None
    else if devices[0].deviceId == deviceId && devices[0].key == key then Some(0)
    else
      match FindByCredentials(devices[1..], deviceId, key)
      case None => None
      case Some(k) => Some(k + 1)
  }

  /** `device.status = status; device.last_seen = now; device.save()`. */
  function SetStatus(db: Db, k: nat, status: string, now: int): (r: Db)
    requires k < |db.devices|
    ensures |r.devices| == |db.devices| && r.sensors == db.sensors && r.readings == db.readings
    ensures r.devices[k] == db.devices[k].(status := status, lastSeen := Some(now))
    ensures forall j :: 0 <= j < |db.devices| && j != k ==> r.devices[j] == db.devices[j]
  {
    db.(devices := db.devices[k := db.devices[k].(status := status, lastSeen := Some(now))])
  }

  /** The value part of `SensorData.__str__`. */
  datatype Shown = ShownFloat(f: Decimal) | ShownText(t: string)

  /** Float first, then string, then boolean as 是/否, else 无数据; each slot
      is checked with `is not None`. */
  function DisplayValue(sd: SensorData): (r: Shown)
    ensures sd.valueFloat.Some? ==> r == ShownFloat(sd.valueFloat.value)
    ensures sd.valueFloat.None? && sd.valueString.Some? ==> r == ShownText(sd.valueString.value)
    ensures sd.valueFloat.None? && sd.valueString.None? && sd.valueBool.Some?
            ==> r == ShownText(if sd.valueBool.value then "是" else "否")
    ensures r == ShownText("无数据") <==>
            sd.valueFloat.None?
            && (sd.valueString == Some("无数据") || (sd.valueString.None? && sd.valueBool.None?))
  {
    if sd.valueFloat.Some? then ShownFloat(sd.valueFloat.value)
    else if sd.valueString.Some? then ShownText(sd.valueString.value)
    else if sd.valueBool.Some? then ShownText(if sd.valueBool.value then "是" else "否")
    else ShownText("无数据")
  }

  /** A Python value handed on by the serializer or put into a template
      context. */
  datatype PyVal = PNone | PFloat(d: Decimal) | PStr(s: string) | PBool(b: bool)

  /** `SensorDataSerializer.get_value`: the first slot that `is not None`,
      in the order float, string, boolean, else `None`. */
  function SerializedValue(sd: SensorData): (r: PyVal)
    ensures r == PNone <==> sd.valueFloat.None? && sd.valueString.None? && sd.valueBool.None?
    ensures r.PFloat? ==> sd.valueFloat == Some(r.d)
    ensures r.PStr? ==> sd.valueFloat.None? && sd.valueString == Some(r.s)
    ensures r.PBool? ==> sd.valueFloat.None? && sd.valueString.None? && sd.valueBool == Some(r.b)
  {
    if sd.valueFloat.Some? then PFloat(sd.valueFloat.value)
    else if sd.valueString.Some? then PStr(sd.valueString.value)
    else if sd.valueBool.Some? then PBool(sd.valueBool.value)
    else PNone
  }

  /** The serializer and `__str__` pick the same slot: what the API returns
      is what the display shows, with booleans as 是/否 and no value as
      无数据. */
  lemma SerializedAgreesWithDisplay(sd: SensorData)
    ensures match SerializedValue(sd)
            case PFloat(d) => DisplayValue(sd) == ShownFloat(d)
            case PStr(t) => DisplayValue(sd) == ShownText(t)
            case PBool(b) => DisplayValue(sd) == ShownText(if b then "是" else "否")
            case PNone => DisplayValue(sd) == ShownText("无数据")
  {
  }
}
