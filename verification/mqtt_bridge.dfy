/** The server side of the MQTT broker connection: the `connected` flag kept
    by the connection callbacks, the parsing of inbound topics into a device
    id and a message kind, the handling of data and status payloads, and
    the construction of outbound command and configuration messages. The
    broker client itself (sockets, the network loop, paho-mqtt) is not
    modelled: its answers are parameters. */
module MqttBridge {
  import opened Wrappers
  import opened Json
  import opened Devices
  import Text
  import JsonText
  import Framing
  import Ingest

  /** The default `TOPIC_PREFIX`. */
  const DefaultPrefix := "novacloud/"
  /** The default `QOS`. */
  const DefaultQos := 1
  /** paho's `MQTT_ERR_SUCCESS`. */
  const ErrSuccess := 0

  datatype Subscription = Subscription(topic: string, qos: int)

  /** The bridge's view of the broker session. */
  datatype Client = Client(connected: bool, prefix: string, qos: int, subscriptions: seq<Subscription>)

  /** A new bridge: the configured `TOPIC_PREFIX` and `QOS`, or their
      defaults, and not connected. */
  function Configure(prefix: Option<string>, qos: Option<int>): (c: Client)
    ensures !c.connected && c.subscriptions == []
    ensures prefix.None? ==> c.prefix == DefaultPrefix
    ensures qos.None? ==> c.qos == DefaultQos
  {
    Client(false, prefix.GetOr(DefaultPrefix), qos.GetOr(DefaultQos), [])
  }

  /** The two wildcard topics the bridge listens to. */
  function DataWildcard(prefix: string): string { prefix + "devices/+/data" }
  function StatusWildcard(prefix: string): string { prefix + "devices/+/status" }

  /** `on_connect`: a zero return code marks the session connected and
      subscribes to the data and status wildcards; any other code marks it
      not connected. */
  function OnConnect(c: Client, rc: int): (r: Client)
    ensures r.connected <==> rc == 0
    ensures r.prefix == c.prefix && r.qos == c.qos
    ensures rc == 0 ==> r.subscriptions == c.subscriptions
                          + [Subscription(DataWildcard(c.prefix), c.qos),
                             Subscription(StatusWildcard(c.prefix), c.qos)]
    ensures rc != 0 ==> r.subscriptions == c.subscriptions
  {
    if rc == 0 then
      c.(connected := true,
         subscriptions := c.subscriptions + [Subscription(DataWildcard(c.prefix), c.qos),
                                             Subscription(StatusWildcard(c.prefix), c.qos)])
    else c.(connected := false)
  }

  /** `on_disconnect`, whatever the return code. */
  function OnDisconnect(c: Client): (r: Client)
    ensures !r.connected && r.prefix == c.prefix && r.subscriptions == c.subscriptions
  {
    c.(connected := false)
  }

  /** A callback from the broker connection. */
  datatype LinkEvent = Connected(rc: int) | Disconnected

  function Replay(c: Client, events: seq<LinkEvent>): Client
    decreases |events|
  {
    if |events| == 0 then c
    else
      var c1 := match events[0] case Connected(rc) => OnConnect(c, rc) case Disconnected => OnDisconnect(c);
      Replay(c1, events[1..])
  }

  /** After any sequence of connection callbacks the bridge is connected
      exactly when the last callback was a successful `on_connect`. */
  lemma {:induction false} ConnectedIffLastConnectSucceeded(c: Client, events: seq<LinkEvent>)
    ensures Replay(c, events).connected <==>
            (if |events| == 0 then c.connected else events[|events| - 1] == Connected(0))
    decreases |events|
  {
    if |events| > 0 {
      var c1 := match events[0] case Connected(rc) => OnConnect(c, rc) case Disconnected => OnDisconnect(c);
      ConnectedIffLastConnectSucceeded(c1, events[1..]);
      if |events| > 1 {
        assert events[1..][|events[1..]| - 1] == events[|events| - 1];
      }
    }
  }

  /** The kinds of inbound message the bridge dispatches. */
  datatype Kind = DataKind | StatusKind

  datatype Route = Route(deviceId: string, kind: Kind)

  /** `on_message`'s topic handling: a topic with fewer than four
      `/`-separated segments, or one that does not start with the prefix,
      is dropped; otherwise segment 2 is the device id and segment 3 the
      kind, and a kind other than `data` or `status` is dropped. The
      `devices` segment and any trailing segments are not looked at. */
  function ParseTopic(topic: string, prefix: string): (r: Option<Route>)
    ensures r.Some? ==> Text.StartsWith(topic, prefix)
    ensures r.Some? ==> |Text.Split(topic, '/')| >= 4
                        && r.value.deviceId == Text.Split(topic, '/')[2]
                        && '/' !in r.value.deviceId
    ensures r.Some? ==> (r.value.kind == DataKind <==> Text.Split(topic, '/')[3] == "data")
    ensures r.Some? ==> (r.value.kind == StatusKind <==> Text.Split(topic, '/')[3] == "status")
    ensures r.None? <==> |Text.Split(topic, '/')| < 4 || !Text.StartsWith(topic, prefix)
                         || Text.Split(topic, '/')[3] !in {"data", "status"}
  {
    var parts := Text.Split(topic, '/');
    if |parts| < 4 then None
    else if !Text.StartsWith(topic, prefix) then None
    else if parts[3] == "data" then Some(Route(parts[2], DataKind))
    else if parts[3] == "status" then Some(Route(parts[2], StatusKind))
    else None
  }

  /** Trailing segments do not change how a topic at least as long as the
      prefix is routed. */
  lemma TrailingSegmentsIgnored(topic: string, prefix: string, extra: string)
    requires |Text.Split(topic, '/')| >= 4 && |prefix| <= |topic|
    ensures ParseTopic(topic + "/" + extra, prefix) == ParseTopic(topic, prefix)
  {
    var longer := topic + "/" + extra;
    Text.SplitAppend(topic, '/', extra);
    assert longer == topic + ['/'] + extra;
    var parts := Text.Split(topic, '/');
    var lparts := Text.Split(longer, '/');
    assert lparts[2] == parts[2] && lparts[3] == parts[3];
    assert longer[..|prefix|] == topic[..|prefix|];
  }

  /** The foreign calls the bridge makes while handling a message. */
  datatype Env = Env(
    decode: Framing.Bytes -> Decoded,   // `json.loads(payload)`, after `payload.decode()`
    pyStr: Ingest.PyStr,                // `str(v)` of a non-string value
    storeFails: Json -> bool,           // the ingestion transaction for this payload raises (a
                                        // write, or `float(v)` overflowing on a huge integer)
    statusFails: (nat, string) -> bool) // saving this status on the device at this position raises

  /** `_handle_device_data`: an unparsable payload or an unknown device id
      writes nothing; otherwise the payload is stored for the device in one
      transaction. */
  function HandleData(db: Db, deviceId: string, payload: Framing.Bytes, now: int, env: Env): (r: Ingest.Stored)
    ensures !env.decode(payload).Parsed? ==> r == Ingest.Stored(db, [], false)
    ensures FindDevice(db.devices, deviceId).None? ==> r == Ingest.Stored(db, [], false)
    ensures !r.ok ==> r == Ingest.Stored(db, [], false)
    ensures r.ok ==> env.decode(payload).Parsed? && FindDevice(db.devices, deviceId).Some?
    ensures r.ok ==> var k := FindDevice(db.devices, deviceId).value;
                     |r.db.devices| == |db.devices|
                     && r.db.devices[k].status == Online && r.db.devices[k].lastSeen == Some(now)
                     && r.db.readings == db.readings + r.created
                     && forall j :: 0 <= j < |r.created| ==> r.created[j].sensor.device == db.devices[k].pk
  {
    match env.decode(payload)
    case Parsed(v) =>
      (match FindDevice(db.devices, deviceId)
       case None => Ingest.Stored(db, [], false)
       case Some(k) => Ingest.Store(db, k, v, now, env.pyStr, env.storeFails(v)))
    case _ => Ingest.Stored(db, [], false)
  }

  /** `_handle_device_status`: a payload that parses and has a `status`
      member sets the device's status to that value verbatim (no check
      against the status choices) with `last_seen = now`. A payload that
      does not parse, has no such member, is not a container, or names an
      unknown device changes nothing; so does a `null` status, which the
      store rejects, and a save that raises, which the transaction rolls
      back. */
  function HandleStatus(db: Db, deviceId: string, payload: Framing.Bytes, now: int, env: Env): (r: Db)
    ensures |r.devices| == |db.devices| && r.sensors == db.sensors && r.readings == db.readings
    ensures r != db ==> env.decode(payload).Parsed?
                        && PyIndex(env.decode(payload).v, "status").Some?
                        && FindDevice(db.devices, deviceId).Some?
    ensures env.decode(payload).Parsed? && FindDevice(db.devices, deviceId).Some? ==>
              var v := env.decode(payload).v;
              var k := FindDevice(db.devices, deviceId).value;
              match PyIndex(v, "status")
              case Some(st) =>
                r == (if st == JNull || env.statusFails(k, Ingest.StrOf(st, env.pyStr)) then db
                      else SetStatus(db, k, Ingest.StrOf(st, env.pyStr), now))
              case None => r == db
  {
    match env.decode(payload)
    case Parsed(v) =>
      (match PyIn("status", v)
       case None => db                     // TypeError from `in`
       case Some(present) =>
         if !present then db
         else
           match PyIndex(v, "status")
           case None => db                 // TypeError from indexing a list or string
           case Some(st) =>
             match FindDevice(db.devices, deviceId)
             case None => db
             case Some(k) =>
               match Ingest.StatusValue(st, env.pyStr)
               case None => db
               case Some(text) => if env.statusFails(k, text) then db else SetStatus(db, k, text, now))
    case _ => db
  }

  /** `on_message`: the debug line decodes the payload as UTF-8 first, so a
      payload that is not UTF-8 is dropped before the topic is looked at. */
  function OnMessage(c: Client, db: Db, topic: string, payload: Framing.Bytes, now: int, env: Env): (r: Ingest.Stored)
    ensures env.decode(payload).BadUtf8? || ParseTopic(topic, c.prefix).None? ==> r == Ingest.Stored(db, [], false)
    ensures r.created != [] ==> ParseTopic(topic, c.prefix).Some?
                                && ParseTopic(topic, c.prefix).value.kind == DataKind
  {
    if env.decode(payload).BadUtf8? then Ingest.Stored(db, [], false)
    else
      match ParseTopic(topic, c.prefix)
      case None => Ingest.Stored(db, [], false)
      case Some(Route(id, DataKind)) => HandleData(db, id, payload, now, env)
      case Some(Route(id, StatusKind)) => Ingest.Stored(HandleStatus(db, id, payload, now, env), [], false)
  }

  /** A payload handed to `publish_command` / `publish_config`: a string is
      sent as it is, anything else as `json.dumps` of it. */
  datatype Payload = TextPayload(s: string) | JsonPayload(v: Json)

  function PayloadText(p: Payload): (r: string)
    ensures p.JsonPayload? ==> JsonText.Printable(r)
  {
    match p
    case TextPayload(s) => s
    case JsonPayload(v) => JsonText.Dumps(v)
  }

  /** One message handed to the broker. */
  datatype Message = Message(topic: string, payload: string, qos: int)

  /** What a publish call returned and what it handed to the broker. */
  datatype Published = Published(ok: bool, sent: Option<Message>)

  /** The default `DEVICE_COMMAND_TOPIC` and `DEVICE_CONFIG_TOPIC` templates
      with the device id substituted, after the prefix. */
  function CommandTopic(prefix: string, deviceId: string): string {
    prefix + "devices/" + deviceId + "/command"
  }

  function ConfigTopic(prefix: string, deviceId: string): string {
    prefix + "devices/" + deviceId + "/config"
  }

  /** The body shared by `publish_command` and `publish_config`: nothing is
      sent while not connected; otherwise the message goes out with the
      given QoS or the configured one, and the call reports success exactly
      when the broker's return code is `MQTT_ERR_SUCCESS`. */
  function PublishTo(c: Client, topic: string, p: Payload, qos: Option<int>, rc: Message -> int): (r: Published)
    ensures !c.connected ==> r == Published(false, None)
    ensures c.connected ==> r.sent == Some(Message(topic, PayloadText(p), qos.GetOr(c.qos)))
    ensures r.ok <==> r.sent.Some? && rc(r.sent.value) == ErrSuccess
  {
    if !c.connected then Published(false, None)
    else
      var m := Message(topic, PayloadText(p), qos.GetOr(c.qos));
      Published(rc(m) == ErrSuccess, Some(m))
  }

  /** `publish_command`. */
  function PublishCommand(c: Client, deviceId: string, p: Payload, qos: Option<int>, rc: Message -> int): (r: Published)
    ensures !c.connected ==> r == Published(false, None)
    ensures r.sent.Some? ==> r.sent.value.topic == CommandTopic(c.prefix, deviceId)
                             && r.sent.value.payload == PayloadText(p)
                             && r.sent.value.qos == qos.GetOr(c.qos)
    ensures r.ok <==> c.connected && rc(Message(CommandTopic(c.prefix, deviceId), PayloadText(p), qos.GetOr(c.qos))) == ErrSuccess
  {
    PublishTo(c, CommandTopic(c.prefix, deviceId), p, qos, rc)
  }

  /** `publish_config`. */
  function PublishConfig(c: Client, deviceId: string, p: Payload, qos: Option<int>, rc: Message -> int): (r: Published)
    ensures !c.connected ==> r == Published(false, None)
    ensures r.sent.Some? ==> r.sent.value.topic == ConfigTopic(c.prefix, deviceId)
                             && r.sent.value.payload == PayloadText(p)
                             && r.sent.value.qos == qos.GetOr(c.qos)
    ensures r.ok <==> c.connected && rc(Message(ConfigTopic(c.prefix, deviceId), PayloadText(p), qos.GetOr(c.qos))) == ErrSuccess
  {
    PublishTo(c, ConfigTopic(c.prefix, deviceId), p, qos, rc)
  }

  /** Nothing published before the first successful `on_connect`: a bridge
      whose callbacks never included `on_connect(0)` cannot publish. */
  lemma NoPublishBeforeConnect(c: Client, events: seq<LinkEvent>, deviceId: string, p: Payload,
                               qos: Option<int>, rc: Message -> int)
    requires !c.connected
    requires forall k :: 0 <= k < |events| ==> events[k] != Connected(0)
    ensures PublishCommand(Replay(c, events), deviceId, p, qos, rc) == Published(false, None)
    ensures PublishConfig(Replay(c, events), deviceId, p, qos, rc) == Published(false, None)
  {
    ConnectedIffLastConnectSucceeded(c, events);
  }
}
