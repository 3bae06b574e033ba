/** The MQTT device simulator: the topics it publishes and listens on, the
    routing of inbound messages to the command and configuration handlers,
    the replies to `ping` and `reboot`, and the gating of its own
    publications on the connection flag. Payloads are JSON values; on the
    wire each is `json.dumps` of the value. Randomly generated readings,
    sleeps and the broker itself are parameters or left out. */
module Simulator {
  import opened Wrappers
  import opened Json
  import opened Devices
  import Text
  import Framing
  import JsonText
  import Ingest
  import MqttBridge

  /** The simulator's fixed topic prefix. */
  const Prefix := "novacloud/"

  /** `f"{topic_prefix}devices/{device_id}/<kind>"`. */
  function Topic(deviceId: string, kind: string): string { Prefix + "devices/" + deviceId + "/" + kind }

  function DataTopic(deviceId: string): string { Topic(deviceId, "data") }
  function StatusTopic(deviceId: string): string { Topic(deviceId, "status") }
  function CommandTopic(deviceId: string): string { Topic(deviceId, "command") }
  function ConfigTopic(deviceId: string): string { Topic(deviceId, "config") }

  /** The simulator's state: its id, the status it last published, and
      whether the broker reported a connection. */
  datatype Sim = Sim(deviceId: string, status: string, connected: bool)

  function NewSim(deviceId: string): (s: Sim)
    ensures s.status == "online" && !s.connected
  {
    Sim(deviceId, "online", false)
  }

  /** One message handed to the broker. */
  datatype Publication = Publication(topic: string, payload: Json)

  /** The state after a callback and what it published, in order. */
  datatype Step = Step(s: Sim, published: seq<Publication>)

  function StatusMessage(s: Sim, status: string, now: int): Json {
    JObj([Field("status", JStr(status)), Field("timestamp", JInt(now)), Field("device_id", JStr(s.deviceId))])
  }

  /** `publish_status`: while not connected nothing is published and the
      recorded status stays as it was. */
  function PublishStatus(s: Sim, status: string, now: int): (r: Step)
    ensures !s.connected ==> r == Step(s, [])
    ensures s.connected ==> r.s == s.(status := status)
                            && r.published == [Publication(StatusTopic(s.deviceId), StatusMessage(s, status, now))]
  {
    if !s.connected then Step(s, [])
    else Step(s.(status := status), [Publication(StatusTopic(s.deviceId), StatusMessage(s, status, now))])
  }

  /** The readings of one `publish_sensor_data` (random in the source). */
  datatype Readings = Readings(temperature: Json, humidity: Json, light: Json)

  function DataMessage(s: Sim, now: int, v: Readings): Json {
    JObj([Field("temperature", v.temperature), Field("humidity", v.humidity), Field("light", v.light),
          Field("timestamp", JInt(now)), Field("device_id", JStr(s.deviceId))])
  }

  /** `publish_sensor_data`: nothing while not connected. */
  function PublishSensorData(s: Sim, now: int, v: Readings): (r: Step)
    ensures r.s == s
    ensures !s.connected ==> r.published == []
    ensures s.connected ==> r.published == [Publication(DataTopic(s.deviceId), DataMessage(s, now, v))]
  {
    if !s.connected then Step(s, [])
    else Step(s, [Publication(DataTopic(s.deviceId), DataMessage(s, now, v))])
  }

  /** `on_connect`: a zero return code marks the simulator connected,
      subscribes to its command and configuration topics and announces it
      is online; any other code marks it disconnected. */
  function OnConnect(s: Sim, rc: int, now: int): (r: (Step, seq<string>))
    ensures r.0.s.connected <==> rc == 0
    ensures rc == 0 ==> r.1 == [CommandTopic(s.deviceId), ConfigTopic(s.deviceId)]
                        && r.0.s.status == "online"
                        && r.0.published == [Publication(StatusTopic(s.deviceId), StatusMessage(s, "online", now))]
    ensures rc != 0 ==> r.1 == [] && r.0.published == [] && r.0.s.status == s.status
  {
    if rc == 0 then
      var c := s.(connected := true);
      (PublishStatus(c, "online", now), [CommandTopic(s.deviceId), ConfigTopic(s.deviceId)])
    else (Step(s.(connected := false), []), [])
  }

  /** `on_disconnect`, whatever the return code. */
  function OnDisconnect(s: Sim): (r: Sim)
    ensures !r.connected && r.status == s.status && r.deviceId == s.deviceId
  {
    s.(connected := false)
  }

  function Reply(s: Sim, response: string, now: int): Publication {
    Publication(DataTopic(s.deviceId),
                JObj([Field("response", JStr(response)), Field("timestamp", JInt(now)), Field("device_id", JStr(s.deviceId))]))
  }

  /** `handle_command`: a payload that does not parse, is not a container,
      has no `command` key or cannot be indexed by it publishes nothing.
      `ping` is answered with `pong` on the data topic; `reboot` publishes
      status offline, then online (both gated on the connection), then
      `reboot_complete`; `later` is the clock after the simulated restart.
      The replies themselves are not gated. Any other command does nothing. */
  function HandleCommand(s: Sim, payload: Framing.Bytes, decode: Framing.Bytes -> Decoded,
                         now: int, later: int): (r: Step)
    ensures r.published != [] ==> decode(payload).Parsed? && PyIndex(decode(payload).v, "command").Some?
    ensures (decode(payload).Parsed? && PyIndex(decode(payload).v, "command") == Some(JStr("ping"))) ==>
              r == Step(s, [Reply(s, "pong", now)])
    ensures (decode(payload).Parsed? && PyIndex(decode(payload).v, "command") == Some(JStr("reboot"))) ==>
              |r.published| > 0 && r.published[|r.published| - 1] == Reply(s, "reboot_complete", later)
    ensures (decode(payload).Parsed? && PyIndex(decode(payload).v, "command").Some?
             && PyIndex(decode(payload).v, "command").value !in {JStr("ping"), JStr("reboot")}) ==>
              r == Step(s, [])
  {
    match decode(payload)
    case Parsed(data) =>
      (match PyIn("command", data)
       case None => Step(s, [])                 // TypeError from `in`
       case Some(present) =>
         if !present then Step(s, [])
         else
           match PyIndex(data, "command")
           case None => Step(s, [])             // TypeError from indexing a list or string
           case Some(command) =>
             if command == JStr("ping") then Step(s, [Reply(s, "pong", now)])
             else if command == JStr("reboot") then
               var down := PublishStatus(s, "offline", now);
               var up := PublishStatus(down.s, "online", later);
               Step(up.s, down.published + up.published + [Reply(up.s, "reboot_complete", later)])
             else Step(s, []))
    case _ => Step(s, [])
  }

  /** A reboot seen by a connected simulator publishes offline, online and
      the completion notice, in that order, and leaves it online. */
  lemma RebootSequence(s: Sim, payload: Framing.Bytes, decode: Framing.Bytes -> Decoded, now: int, later: int)
    requires s.connected
    requires decode(payload).Parsed? && PyIndex(decode(payload).v, "command") == Some(JStr("reboot"))
    ensures var r := HandleCommand(s, payload, decode, now, later);
            && r.s == s.(status := "online")
            && r.published == [Publication(StatusTopic(s.deviceId), StatusMessage(s, "offline", now)),
                               Publication(StatusTopic(s.deviceId), StatusMessage(s, "online", later)),
                               Reply(s, "reboot_complete", later)]
  {
    assert PyIn("command", decode(payload).v) == Some(true);
  }

  /** `handle_config`: a payload that parses is acknowledged on the data
      topic, carrying the configuration back; anything else publishes
      nothing. The configuration is not applied. */
  function HandleConfig(s: Sim, payload: Framing.Bytes, decode: Framing.Bytes -> Decoded, now: int): (r: Step)
    ensures r.s == s
    ensures !decode(payload).Parsed? ==> r.published == []
    ensures decode(payload).Parsed? ==>
              r.published == [Publication(DataTopic(s.deviceId),
                                          JObj([Field("response", JStr("config_applied")), Field("timestamp", JInt(now)),
                                                Field("device_id", JStr(s.deviceId)), Field("config", decode(payload).v)]))]
  {
    match decode(payload)
    case Parsed(config) =>
      Step(s, [Publication(DataTopic(s.deviceId),
                           JObj([Field("response", JStr("config_applied")), Field("timestamp", JInt(now)),
                                 Field("device_id", JStr(s.deviceId)), Field("config", config)]))])
    case _ => Step(s, [])
  }

  /** `on_message`: the log line decodes the payload as UTF-8 first, so a
      payload that is not UTF-8 does nothing; otherwise only the exact
      command topic reaches the command handler and only the exact
      configuration topic the configuration handler. */
  function OnMessage(s: Sim, topic: string, payload: Framing.Bytes, decode: Framing.Bytes -> Decoded,
                     now: int, later: int): (r: Step)
    ensures decode(payload).BadUtf8? ==> r == Step(s, [])
    ensures topic != CommandTopic(s.deviceId) && topic != ConfigTopic(s.deviceId) ==> r == Step(s, [])
    ensures !decode(payload).BadUtf8? && topic == CommandTopic(s.deviceId) ==>
              r == HandleCommand(s, payload, decode, now, later)
    ensures !decode(payload).BadUtf8? && topic == ConfigTopic(s.deviceId) ==>
              r == HandleConfig(s, payload, decode, now)
  {
    if decode(payload).BadUtf8? then Step(s, [])
    else if topic == CommandTopic(s.deviceId) then HandleCommand(s, payload, decode, now, later)
    else if topic == ConfigTopic(s.deviceId) then HandleConfig(s, payload, decode, now)
    else Step(s, [])
  }

  /** `disconnect`: announce going offline (if still connected). The flag
      itself is cleared by the broker's `on_disconnect` callback. */
  function Disconnect(s: Sim, now: int): (r: Step)
    ensures s.connected ==> r.published == [Publication(StatusTopic(s.deviceId), StatusMessage(s, "offline", now))]
                            && r.s.status == "offline"
    ensures !s.connected ==> r == Step(s, [])
  {
    PublishStatus(s, "offline", now)
  }

  /** The four topics of a device are `novacloud/devices/<id>/<kind>`,
      four `/`-separated segments when the id has no `/`. */
  lemma TopicSegments(deviceId: string, kind: string)
    requires '/' !in deviceId && '/' !in kind
    ensures Text.Split(Topic(deviceId, kind), '/') == ["novacloud", "devices", deviceId, kind]
    ensures Text.StartsWith(Topic(deviceId, kind), MqttBridge.DefaultPrefix)
  {
    var parts := ["novacloud", "devices", deviceId, kind];
    var topic := Topic(deviceId, kind);
    assert Text.Join(parts, '/') == topic by {
      assert Text.Join(parts[3..], '/') == kind;
      assert Text.Join(parts[2..], '/') == deviceId + ['/'] + kind by {
        assert parts[2..][1..] == parts[3..];
      }
      assert Text.Join(parts[1..], '/') == "devices" + ['/'] + (deviceId + ['/'] + kind) by {
        assert parts[1..][1..] == parts[2..];
      }
      assert parts[1..] == parts[1..];
    }
    Text.SplitJoin(parts, '/');
    assert topic[..|Prefix|] == Prefix;
  }

  /** The simulator's data and status topics reach the bridge's data and
      status handlers with the simulator's own id, when the id has no `/`.
      Its command and configuration topics are not dispatched by the
      bridge. */
  lemma SimulatorTopicsRouteOnTheServer(deviceId: string)
    requires '/' !in deviceId
    ensures MqttBridge.ParseTopic(DataTopic(deviceId), MqttBridge.DefaultPrefix)
            == Some(MqttBridge.Route(deviceId, MqttBridge.DataKind))
    ensures MqttBridge.ParseTopic(StatusTopic(deviceId), MqttBridge.DefaultPrefix)
            == Some(MqttBridge.Route(deviceId, MqttBridge.StatusKind))
    ensures MqttBridge.ParseTopic(CommandTopic(deviceId), MqttBridge.DefaultPrefix).None?
    ensures MqttBridge.ParseTopic(ConfigTopic(deviceId), MqttBridge.DefaultPrefix).None?
  {
    TopicSegments(deviceId, "data");
    TopicSegments(deviceId, "status");
    TopicSegments(deviceId, "command");
    TopicSegments(deviceId, "config");
  }

  /** The bridge's outbound topics are the ones the simulator listens on,
      when both use the default prefix. */
  lemma BridgeCommandsReachTheSimulator(deviceId: string)
    ensures MqttBridge.CommandTopic(MqttBridge.DefaultPrefix, deviceId) == CommandTopic(deviceId)
    ensures MqttBridge.ConfigTopic(MqttBridge.DefaultPrefix, deviceId) == ConfigTopic(deviceId)
  {
  }

  /** An id containing `/` breaks the routing: the data topic of device
      `<id>/status` is read by the bridge as a status message for device
      `<id>`. */
  lemma SlashInIdMisroutes(deviceId: string)
    requires '/' !in deviceId
    ensures MqttBridge.ParseTopic(DataTopic(deviceId + "/status"), MqttBridge.DefaultPrefix)
            == Some(MqttBridge.Route(deviceId, MqttBridge.StatusKind))
  {
    var status := StatusTopic(deviceId);
    assert DataTopic(deviceId + "/status") == status + "/" + "data";
    TopicSegments(deviceId, "status");
    MqttBridge.TrailingSegmentsIgnored(status, MqttBridge.DefaultPrefix, "data");
    SimulatorTopicsRouteOnTheServer(deviceId);
  }

  /** A status the simulator publishes sets the device's status on the
      server to that text, provided `json.loads` inverts `json.dumps` on
      it and the id names a stored device, unless the save raises. */
  lemma PublishedStatusReachesTheBridge(s: Sim, status: string, now: int, at: int,
                                        c: MqttBridge.Client, db: Db, env: MqttBridge.Env)
    requires '/' !in s.deviceId && c.prefix == MqttBridge.DefaultPrefix
    requires var m := StatusMessage(s, status, now); env.decode(JsonText.Wire(m)) == Parsed(m)
    requires FindDevice(db.devices, s.deviceId).Some?
    ensures var m := StatusMessage(s, status, now);
            var k := FindDevice(db.devices, s.deviceId).value;
            MqttBridge.OnMessage(c, db, StatusTopic(s.deviceId), JsonText.Wire(m), at, env)
            == Ingest.Stored(if env.statusFails(k, status) then db else SetStatus(db, k, status, at), [], false)
  {
    SimulatorTopicsRouteOnTheServer(s.deviceId);
    var m := StatusMessage(s, status, now);
    assert m.fields[0].key == "status";
    assert Get(m.fields, "status") == Some(JStr(status));
    assert PyIndex(m, "status") == Some(JStr(status));
    assert MqttBridge.HandleStatus(db, s.deviceId, JsonText.Wire(m), at, env)
           == (if env.statusFails(FindDevice(db.devices, s.deviceId).value, status) then db
               else SetStatus(db, FindDevice(db.devices, s.deviceId).value, status, at));
  }

  /** The readings the simulator publishes are stored for its device by
      the bridge's data handler. */
  lemma PublishedReadingsReachTheBridge(s: Sim, now: int, v: Readings, at: int,
                                        c: MqttBridge.Client, db: Db, env: MqttBridge.Env)
    requires '/' !in s.deviceId && c.prefix == MqttBridge.DefaultPrefix
    requires var m := DataMessage(s, now, v); env.decode(JsonText.Wire(m)) == Parsed(m)
    ensures var m := DataMessage(s, now, v);
            MqttBridge.OnMessage(c, db, DataTopic(s.deviceId), JsonText.Wire(m), at, env)
            == MqttBridge.HandleData(db, s.deviceId, JsonText.Wire(m), at, env)
  {
    SimulatorTopicsRouteOnTheServer(s.deviceId);
  }
}
