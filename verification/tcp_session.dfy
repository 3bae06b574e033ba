/** One TCP device connection on the server: the receive buffer and its cap,
    the authentication handshake, the dispatch of authenticated messages by
    `type`, the replies, and the status change on disconnect. What the
    connection does is a sequence of events (a reply sent, a close
    requested); a close is an event, not the end of processing, so frames
    that arrived in the same chunk are still handled. */
module TcpSession {
  import opened Wrappers
  import opened Json
  import opened Devices
  import Framing
  import JsonText
  import Ingest

  /** What the consumer knows about its connection. `deviceId` is the value
      the device authenticated with, kept as sent. */
  datatype Session = Session(buffer: Framing.Bytes, authenticated: bool, deviceId: Option<Json>, device: Option<nat>)

  /** A fresh connection: empty buffer, not authenticated. */
  const Fresh := Session([], false, None, None)

  /** The consumer's fields agree with each other and name a stored device. */
  predicate Inv(s: Session, db: Db) {
    (s.authenticated <==> s.device.Some?)
    && (s.authenticated <==> s.deviceId.Some?)
    && (s.device.Some? ==> s.device.value < |db.devices|)
  }

  /** The exceptions whose text (`str(e)`) an error reply carries. */
  datatype Exn =
    | UnicodeError            // the frame is not UTF-8
    | NotContainer(v: Json)   // `key in message` on a number, boolean or null
    | NotSubscriptable(v: Json) // `message[key]` on a list or string
    | NoGet(v: Json)          // `message.get(...)` on anything but an object
    | NullStatus              // the non-null `status` column rejects `None`
    | StatusWriteFailed       // the device row's `save()` raised

  /** Everything outside the consumer: the cap, `json.loads`, Python's
      `str`, the database's failures, the exceptions' texts and the clock.
      `storeFails` is the failure of the ingestion transaction for a
      payload, whether a write raises or `float(v)` overflows on a huge
      integer; `statusFails(k, text)` is the failure of the save that
      writes `text` as the status of the device at position `k`. */
  datatype Env = Env(
    maxSize: nat,
    decode: Framing.Bytes -> Decoded,
    pyStr: Ingest.PyStr,
    storeFails: Json -> bool,
    statusFails: (nat, string) -> bool,
    exnText: Exn -> string,
    now: int)

  /** `send(tcp.send)` of one JSON message, or `send(tcp.close)`. */
  datatype Event = Send(msg: Json) | Close

  /** The `type` member of a reply. */
  function ReplyType(e: Event): Option<Json> {
    if e.Send? && e.msg.JObj? then Get(e.msg.fields, "type") else None
  }

  /** `send_response`: the reply gets the session's device id appended
      unless it has one already or the id is falsy. */
  function WithDeviceId(fields: seq<Field>, deviceId: Option<Json>): (r: seq<Field>)
    ensures HasKey(fields, "device_id") || deviceId.None? || !Truthy(deviceId.value) ==> r == fields
    ensures !HasKey(fields, "device_id") && deviceId.Some? && Truthy(deviceId.value) ==>
              r == fields + [Field("device_id", deviceId.value)] && Get(r, "device_id") == deviceId
  {
    if !HasKey(fields, "device_id") && deviceId.Some? && Truthy(deviceId.value) then
      Put(fields, "device_id", deviceId.value)
    else fields
  }

  /** `send_error(code, message)`. */
  function ErrorReply(s: Session, code: string, message: string, now: int): (e: Event)
    ensures ReplyType(e) == Some(JStr("error"))
    ensures e.Send? && e.msg.JObj? && Get(e.msg.fields, "error_code") == Some(JStr(code))
    ensures Get(e.msg.fields, "device_id").Some? <==> s.deviceId.Some? && Truthy(s.deviceId.value)
  {
    Send(JObj(ErrorMembers(s.deviceId, code, message, now)))
  }

  /** The members of an error reply: its type and code, the message, the
      time, and the device id when the session has a truthy one. */
  function ErrorMembers(deviceId: Option<Json>, code: string, message: string, now: int): (fields: seq<Field>)
    ensures Get(fields, "type") == Some(JStr("error"))
    ensures Get(fields, "error_code") == Some(JStr(code))
    ensures Get(fields, "device_id").Some? <==> deviceId.Some? && Truthy(deviceId.value)
  {
    var base := [Field("type", JStr("error")), Field("error_code", JStr(code)),
                 Field("message", JStr(message)), Field("timestamp", JInt(now))];
    ErrorFields(base);
    var extra := Field("device_id", deviceId.GetOr(JNull));
    GetAppend(base, extra, "device_id");
    GetAppend(base, extra, "error_code");
    GetAppend(base, extra, "type");
    if deviceId.Some? && Truthy(deviceId.value) then base + [extra] else base
  }

  /** The fixed members of an error reply carry its type and code and no
      device id. */
  lemma ErrorFields(base: seq<Field>)
    requires |base| == 4 && base[0].key == "type" && base[1].key == "error_code"
    requires base[2].key == "message" && base[3].key == "timestamp"
    ensures Get(base, "device_id").None?
    ensures Get(base, "error_code") == Some(base[1].val)
    ensures Get(base, "type") == Some(base[0].val)
  {
    GetUnique(base, 0);
    GetUnique(base, 1);
    assert !HasKey(base, "device_id");
  }

  /** A reply built by `send_response`. */
  function Response(s: Session, fields: seq<Field>): (e: Event)
    requires |fields| > 0 && fields[0].key == "type" && !HasKey(fields[1..], "type")
    ensures e.Send? && e.msg.JObj?
    ensures ReplyType(e) == Some(fields[0].val)
  {
    var r := WithDeviceId(fields, s.deviceId);
    assert r[0] == fields[0];
    assert !HasKey(r[1..], "type") by {
      if r != fields {
        assert r[1..] == fields[1..] + [Field("device_id", s.deviceId.value)];
      }
    }
    Send(JObj(r))
  }

  /** The state after handling some input: the session, the store, the
      events sent and the readings committed to the store. */
  datatype Step = Step(s: Session, db: Db, events: seq<Event>, created: seq<SensorData>)

  /** A step that only sends an error. */
  function Fail(s: Session, db: Db, code: string, message: string, env: Env): (r: Step)
    ensures r.s == s && r.db == db && r.created == [] && |r.events| == 1
    ensures ReplyType(r.events[0]) == Some(JStr("error"))
  {
    Step(s, db, [ErrorReply(s, code, message, env.now)], [])
  }

  /** An error followed by a close. */
  function Refuse(s: Session, db: Db, code: string, message: string, env: Env): (r: Step)
    ensures r.s == s && r.db == db && r.created == [] && |r.events| == 2 && r.events[1] == Close
    ensures ReplyType(r.events[0]) == Some(JStr("error"))
  {
    Step(s, db, [ErrorReply(s, code, message, env.now), Close], [])
  }

  /** The credentials a device-id or device-key value is looked up with:
      `str(v)` of the value; JSON `null` is the `IS NULL` lookup, which no
      stored device matches. */
  function LookupText(v: Json, pyStr: Ingest.PyStr): Option<string>
  {
    if v.JNull? then None else Some(Ingest.StrOf(v, pyStr))
  }

  /** `validate_device`: the stored device whose id and key equal the
      values sent. */
  function Validate(db: Db, id: Json, key: Json, pyStr: Ingest.PyStr): (r: Option<nat>)
    ensures r.Some? ==> r.value < |db.devices|
                        && Some(db.devices[r.value].deviceId) == LookupText(id, pyStr)
                        && Some(db.devices[r.value].key) == LookupText(key, pyStr)
    ensures r.None? && LookupText(id, pyStr).Some? && LookupText(key, pyStr).Some? ==>
              forall k :: 0 <= k < |db.devices| ==>
                !(Some(db.devices[k].deviceId) == LookupText(id, pyStr) && Some(db.devices[k].key) == LookupText(key, pyStr))
  {
    match (LookupText(id, pyStr), LookupText(key, pyStr))
    case (Some(i), Some(k)) => FindByCredentials(db.devices, i, k)
    case _ => None
  }

  /** `authenticate(message)` on an unauthenticated session. A message
      without both credentials, or with credentials no device has, is
      refused and the connection closed; a message on which `in` or
      indexing raises gets an `internal_error` reply and no close. The
      session is marked authenticated before the device is set `online`,
      so a failing write leaves it authenticated while an `auth_error`
      and a close are sent. */
  function Authenticate(s: Session, db: Db, m: Json, env: Env): (r: Step)
    requires Inv(s, db) && !s.authenticated
    ensures Inv(r.s, r.db) && |r.db.devices| == |db.devices| && r.created == []
    ensures r.s.buffer == s.buffer
    ensures r.s.authenticated <==> (m.JObj? && HasKey(m.fields, "device_id") && HasKey(m.fields, "device_key")
                                    && Validate(db, Get(m.fields, "device_id").value, Get(m.fields, "device_key").value, env.pyStr).Some?)
    ensures r.s.authenticated ==>
              var k := r.s.device.value;
              && r.s.deviceId == Get(m.fields, "device_id")
              && k == Validate(db, Get(m.fields, "device_id").value, Get(m.fields, "device_key").value, env.pyStr).value
              && (!env.statusFails(k, Online) ==>
                    r.db == SetStatus(db, k, Online, env.now)
                    && |r.events| == 1 && ReplyType(r.events[0]) == Some(JStr("auth_success")))
              && (env.statusFails(k, Online) ==>
                    r.db == db && |r.events| == 2 && r.events[1] == Close
                    && ReplyType(r.events[0]) == Some(JStr("error")))
    ensures !r.s.authenticated ==> (r.s == s && r.db == db && (|r.events| == 1 || (|r.events| == 2 && r.events[1] == Close))
                                    && ReplyType(r.events[0]) == Some(JStr("error")))
    ensures !r.s.authenticated && PyIn("device_id", m).Some? && PyIndex(m, "device_id").Some? ==> Close in r.events
  {
    match PyIn("device_id", m)
    case None => Fail(s, db, "internal_error", env.exnText(NotContainer(m)), env)
    case Some(hasId) =>
      if !hasId || !PyIn("device_key", m).value then
        Refuse(s, db, "auth_failed", "缺少device_id或device_key", env)
      else
        match PyIndex(m, "device_id")
        case None => Fail(s, db, "internal_error", env.exnText(NotSubscriptable(m)), env)
        case Some(id) =>
          var key := PyIndex(m, "device_key").value;
          match Validate(db, id, key, env.pyStr)
          case None => Refuse(s, db, "auth_failed", "设备ID或密钥无效", env)
          case Some(k) =>
            var s1 := s.(authenticated := true, deviceId := Some(id), device := Some(k));
            if env.statusFails(k, Online) then
              Step(s1, db, [ErrorReply(s1, "auth_error", env.exnText(StatusWriteFailed), env.now), Close], [])
            else
              var reply := Response(s1, [Field("type", JStr("auth_success")), Field("message", JStr("认证成功")),
                                         Field("timestamp", JInt(env.now))]);
              Step(s1, SetStatus(db, k, Online, env.now), [reply], [])
  }

  /** `process_data_message`: the payload gets the server's clock as
      `timestamp` unless it carries one, and is stored for the session's
      device in one transaction. */
  function ProcessData(s: Session, db: Db, fields: seq<Field>, env: Env): (r: Step)
    requires Inv(s, db) && s.authenticated
    ensures r.s == s && |r.db.devices| == |db.devices| && |r.events| == 1
    ensures var payload := JObj(if HasKey(fields, "timestamp") then fields else Put(fields, "timestamp", JInt(env.now)));
            var stored := Ingest.Store(db, s.device.value, payload, env.now, env.pyStr, env.storeFails(payload));
            && r.db == stored.db && r.created == stored.created
            && ReplyType(r.events[0]) == Some(JStr(if stored.ok then "data_received" else "error"))
  {
    var payload := JObj(if HasKey(fields, "timestamp") then fields else Put(fields, "timestamp", JInt(env.now)));
    var stored := Ingest.Store(db, s.device.value, payload, env.now, env.pyStr, env.storeFails(payload));
    if stored.ok then
      var reply := Response(s, [Field("type", JStr("data_received")), Field("timestamp", JInt(env.now))]);
      Step(s, stored.db, [reply], stored.created)
    else Fail(s, db, "data_store_failed", "存储传感器数据失败", env)
  }

  /** `process_status_message`: the value of `status`, whatever it is, is
      written to the device (as `str(value)`); JSON `null` fails at the
      non-null column, and any value fails when the save raises. The reply
      echoes the value as sent. */
  function ProcessStatus(s: Session, db: Db, fields: seq<Field>, env: Env): (r: Step)
    requires Inv(s, db) && s.authenticated
    ensures r.s == s && r.created == [] && |r.events| == 1
    ensures !HasKey(fields, "status") ==> r.db == db
    ensures HasKey(fields, "status") ==>
              match Ingest.StatusValue(Get(fields, "status").value, env.pyStr)
              case None => r.db == db && ReplyType(r.events[0]) == Some(JStr("error"))
              case Some(text) =>
                if env.statusFails(s.device.value, text) then
                  r.db == db && ReplyType(r.events[0]) == Some(JStr("error"))
                else
                  r.db == SetStatus(db, s.device.value, text, env.now)
                  && ReplyType(r.events[0]) == Some(JStr("status_updated"))
    ensures |r.db.devices| == |db.devices|
  {
    if !HasKey(fields, "status") then Fail(s, db, "invalid_status", "缺少status字段", env)
    else
      var status := Get(fields, "status").value;
      match Ingest.StatusValue(status, env.pyStr)
      case None => Fail(s, db, "status_process_error", env.exnText(NullStatus), env)
      case Some(text) =>
        if env.statusFails(s.device.value, text) then
          Fail(s, db, "status_process_error", env.exnText(StatusWriteFailed), env)
        else
        var reply := Response(s, [Field("type", JStr("status_updated")), Field("status", status),
                                  Field("timestamp", JInt(env.now))]);
        Step(s, SetStatus(db, s.device.value, text, env.now), [reply], [])
  }

  /** The text Python's f-string gives a message type. */
  function TypeText(v: Json, pyStr: Ingest.PyStr): string {
    Ingest.StrOf(v, pyStr)
  }

  /** `process_message`: dispatch on `type`, which defaults to "data";
      anything but an object raises at `.get`. */
  function ProcessMessage(s: Session, db: Db, m: Json, env: Env): (r: Step)
    requires Inv(s, db) && s.authenticated
    ensures r.s == s && |r.db.devices| == |db.devices| && |r.events| == 1
    ensures !m.JObj? ==> r.db == db && ReplyType(r.events[0]) == Some(JStr("error"))
    ensures m.JObj? && Get(m.fields, "type").GetOr(JStr("data")) == JStr("data") ==> r == ProcessData(s, db, m.fields, env)
    ensures m.JObj? && Get(m.fields, "type") == Some(JStr("status")) ==> r == ProcessStatus(s, db, m.fields, env)
    ensures m.JObj? && Get(m.fields, "type").GetOr(JStr("data")) !in {JStr("data"), JStr("status")} ==>
              r.db == db && r.created == [] && ReplyType(r.events[0]) == Some(JStr("error"))
  {
    if !m.JObj? then Fail(s, db, "internal_error", env.exnText(NoGet(m)), env)
    else
      var msgType := Get(m.fields, "type").GetOr(JStr("data"));
      if msgType == JStr("data") then ProcessData(s, db, m.fields, env)
      else if msgType == JStr("status") then ProcessStatus(s, db, m.fields, env)
      else Fail(s, db, "unknown_type", "未知的消息类型: " + TypeText(msgType, env.pyStr), env)
  }

  /** `process_frame`: every frame gets exactly one reply, followed by a
      close only when an authentication attempt is refused or its status
      write fails. */
  function ProcessFrame(s: Session, db: Db, frame: Framing.Bytes, env: Env): (r: Step)
    requires Inv(s, db)
    ensures Inv(r.s, r.db) && |r.db.devices| == |db.devices| && r.s.buffer == s.buffer
    ensures 1 <= |r.events| <= 2 && r.events[0].Send?
    ensures |r.events| == 2 ==> r.events[1] == Close && !s.authenticated
    ensures s.authenticated ==> r.s == s
    ensures !env.decode(frame).Parsed? ==> (r.s == s && r.db == db && |r.events| == 1
                                           && ReplyType(r.events[0]) == Some(JStr("error")))
    ensures r.created != [] ==> s.authenticated
  {
    match env.decode(frame)
    case BadUtf8 => Fail(s, db, "internal_error", env.exnText(UnicodeError), env)
    case BadJson => Fail(s, db, "invalid_json", "无效的JSON格式", env)
    case Parsed(m) =>
      if !s.authenticated then Authenticate(s, db, m, env) else ProcessMessage(s, db, m, env)
  }

  /** The frames of one chunk, handled in order. */
  function ProcessFrames(s: Session, db: Db, frames: seq<Framing.Bytes>, env: Env): (r: Step)
    requires Inv(s, db)
    ensures Inv(r.s, r.db) && |r.db.devices| == |db.devices| && r.s.buffer == s.buffer
    ensures |frames| <= |r.events| <= 2 * |frames|
    ensures s.authenticated ==> r.s == s && Close !in r.events
    decreases |frames|
  {
    if |frames| == 0 then Step(s, db, [], [])
    else
      var first := ProcessFrame(s, db, frames[0], env);
      var rest := ProcessFrames(first.s, first.db, frames[1..], env);
      Step(rest.s, rest.db, first.events + rest.events, first.created + rest.created)
  }

  /** `tcp_receive`: append the chunk; past the cap, request a close and
      handle nothing (the buffer keeps every byte); otherwise handle every
      complete frame and keep the tail. */
  function Receive(s: Session, db: Db, chunk: Framing.Bytes, env: Env): (r: Step)
    requires Inv(s, db)
    ensures Inv(r.s, r.db) && |r.db.devices| == |db.devices|
    ensures |s.buffer + chunk| > env.maxSize ==>
              r == Step(s.(buffer := s.buffer + chunk), db, [Close], [])
    ensures |s.buffer + chunk| <= env.maxSize ==>
              Framing.Terminated(Framing.SplitFrames(s.buffer + chunk).0) + r.s.buffer == s.buffer + chunk
              && Framing.Newline !in r.s.buffer
    ensures s.authenticated && |s.buffer + chunk| <= env.maxSize ==> Close !in r.events
  {
    match Framing.Receive(s.buffer, chunk, env.maxSize)
    case Overflow(b) => Step(s.(buffer := b), db, [Close], [])
    case Frames(frames, rest) => ProcessFrames(s.(buffer := rest), db, frames, env)
  }

  /** `tcp_disconnect`: an authenticated device goes offline, unless the
      write raises (`writeFails`), which escapes the handler and leaves the
      device as it was. */
  function Disconnect(s: Session, db: Db, now: int, writeFails: bool): (r: Db)
    requires Inv(s, db)
    ensures |r.devices| == |db.devices| && r.sensors == db.sensors && r.readings == db.readings
    ensures s.authenticated && !writeFails ==> (r.devices[s.device.value].status == Offline
                                                && r.devices[s.device.value].lastSeen == Some(now))
    ensures s.authenticated && !writeFails ==> r == SetStatus(db, s.device.value, Offline, now)
    ensures !s.authenticated || writeFails ==> r == db
  {
    if s.device.Some? && s.authenticated && !writeFails then SetStatus(db, s.device.value, Offline, now) else db
  }

  /** Every reply goes out as its JSON text plus the delimiter, which the
      receiving side splits back into exactly that one message. */
  lemma ReplyIsOneFrame(msg: Json, tail: Framing.Bytes)
    requires Framing.Newline !in tail
    ensures Framing.SplitFrames(JsonText.Wire(msg) + [Framing.Newline] + tail) == ([JsonText.Wire(msg)], tail)
  {
    var frames := [JsonText.Wire(msg)];
    assert Framing.DelimiterFree(frames);
    assert Framing.Terminated(frames[1..]) == [];
    assert Framing.Terminated(frames) == JsonText.Wire(msg) + [Framing.Newline];
    Framing.SplitTerminated(frames, tail);
  }

  /** Two delimiter-free frames, each followed by the delimiter, split
      back into those two frames and an empty tail. */
  lemma TwoFrames(a: Framing.Bytes, b: Framing.Bytes)
    requires Framing.Newline !in a && Framing.Newline !in b
    ensures Framing.SplitFrames(a + [Framing.Newline] + b + [Framing.Newline]) == ([a, b], [])
  {
    var frames := [a, b];
    assert Framing.DelimiterFree(frames);
    TerminatedPair(a, b);
    Framing.SplitTerminated(frames, []);
    assert Framing.Terminated(frames) + [] == Framing.Terminated(frames);
  }

  /** Two frames written out, each with its delimiter. */
  lemma TerminatedPair(a: Framing.Bytes, b: Framing.Bytes)
    ensures Framing.Terminated([a, b]) == a + [Framing.Newline] + b + [Framing.Newline]
  {
    var frames := [a, b];
    assert frames[1..] == [b] && [b][1..] == [];
    assert Framing.Terminated([b]) == b + [Framing.Newline];
  }

  /** Two frames are handled one after the other. */
  lemma TwoFrameSteps(s: Session, db: Db, a: Framing.Bytes, b: Framing.Bytes, env: Env)
    requires Inv(s, db)
    ensures var first := ProcessFrame(s, db, a, env);
            var second := ProcessFrame(first.s, first.db, b, env);
            var r := ProcessFrames(s, db, [a, b], env);
            r.s == second.s && r.events == first.events + second.events
  {
    var first := ProcessFrame(s, db, a, env);
    assert [a, b][1..] == [b];
    assert [b][1..] == [];
    var second := ProcessFrame(first.s, first.db, b, env);
    assert ProcessFrames(first.s, first.db, [b], env).events == second.events + [];
  }

  /** A refused authentication does not end processing: a bad attempt and
      a good one arriving in the same chunk leave the session authenticated,
      although a close was requested in between. */
  lemma RefusedThenAcceptedInOneChunk(db: Db, bad: Framing.Bytes, good: Framing.Bytes, env: Env,
                                      m1: Json, m2: Json)
    requires Framing.Newline !in bad && Framing.Newline !in good
    requires |bad| + |good| + 2 <= env.maxSize
    requires env.decode(bad) == Parsed(m1) && env.decode(good) == Parsed(m2)
    requires m1.JObj? && !HasKey(m1.fields, "device_id")
    requires m2.JObj? && HasKey(m2.fields, "device_id") && HasKey(m2.fields, "device_key")
    requires Validate(db, Get(m2.fields, "device_id").value, Get(m2.fields, "device_key").value, env.pyStr).Some?
    ensures var r := Receive(Fresh, db, bad + [Framing.Newline] + good + [Framing.Newline], env);
            r.s.authenticated && Close in r.events
  {
    ChunkOfTwoFrames(db, bad, good, env);
    MissingIdIsRefused(db, bad, env, m1);
    TwoFrameSteps(Fresh, db, bad, good, env);
  }

  /** A chunk holding two whole frames on a fresh connection is handled
      as those two frames. */
  lemma ChunkOfTwoFrames(db: Db, a: Framing.Bytes, b: Framing.Bytes, env: Env)
    requires Framing.Newline !in a && Framing.Newline !in b
    requires |a| + |b| + 2 <= env.maxSize
    ensures Receive(Fresh, db, a + [Framing.Newline] + b + [Framing.Newline], env)
            == ProcessFrames(Fresh, db, [a, b], env)
  {
    var chunk := a + [Framing.Newline] + b + [Framing.Newline];
    TwoFrames(a, b);
    assert Fresh.buffer + chunk == chunk;
  }

  /** A first message without a device id is refused with a close and
      leaves the session as it was. */
  lemma MissingIdIsRefused(db: Db, frame: Framing.Bytes, env: Env, m: Json)
    requires env.decode(frame) == Parsed(m) && m.JObj? && !HasKey(m.fields, "device_id")
    ensures var r := ProcessFrame(Fresh, db, frame, env);
            r.s == Fresh && r.db == db && |r.events| == 2 && r.events[1] == Close
  {
  }

  /** Resending a status message changes nothing more: the device's row
      after two identical status messages is the row after one. */
  lemma StatusReplayIsIdempotent(s: Session, db: Db, fields: seq<Field>, env: Env)
    requires Inv(s, db) && s.authenticated
    ensures var once := ProcessStatus(s, db, fields, env);
            ProcessStatus(s, once.db, fields, env).db == once.db
  {
  }

  /** The status column accepts any text the device sends: unless the save
      itself raises, a status message can leave a device in a status none
      of the model's choices name (such as "rebooting"). */
  lemma StatusIsNotValidated(s: Session, db: Db, env: Env, status: string)
    requires Inv(s, db) && s.authenticated && !IsStatusChoice(status)
    ensures var r := ProcessStatus(s, db, [Field("status", JStr(status))], env);
            !env.statusFails(s.device.value, status) ==>
              r.db.devices[s.device.value].status == status
              && !IsStatusChoice(r.db.devices[s.device.value].status)
              && ReplyType(r.events[0]) == Some(JStr("status_updated"))
  {
    var fields := [Field("status", JStr(status))];
    assert fields[0].key == "status";
    assert HasKey(fields, "status");
    assert Get(fields, "status") == Some(JStr(status));
  }

  /** A data message without a `timestamp` is stored with the server's
      clock under that key, so a sensor whose value key is "timestamp"
      records the clock reading. */
  lemma DataMessageGetsTheClock(s: Session, db: Db, fields: seq<Field>, env: Env)
    requires Inv(s, db) && s.authenticated && !HasKey(fields, "timestamp")
    ensures var payload := JObj(Put(fields, "timestamp", JInt(env.now)));
            ProcessData(s, db, fields, env).db
              == Ingest.Store(db, s.device.value, payload, env.now, env.pyStr, env.storeFails(payload)).db
            && Get(payload.fields, "timestamp") == Some(JInt(env.now))
  {
  }

  /** The buffer is only carried along by frame handling. */
  lemma BufferIsCarried(s: Session, db: Db, frames: seq<Framing.Bytes>, env: Env, x: Framing.Bytes)
    requires Inv(s, db)
    ensures var r := ProcessFrames(s, db, frames, env);
            ProcessFrames(s.(buffer := x), db, frames, env) == r.(s := r.s.(buffer := x))
    decreases |frames|
  {
    if |frames| > 0 {
      var first := ProcessFrame(s, db, frames[0], env);
      var first' := ProcessFrame(s.(buffer := x), db, frames[0], env);
      assert first' == first.(s := first.s.(buffer := x)) by {
        FrameIgnoresBuffer(s, db, frames[0], env, x);
      }
      BufferIsCarried(first.s, first.db, frames[1..], env, x);
    }
  }

  lemma FrameIgnoresBuffer(s: Session, db: Db, frame: Framing.Bytes, env: Env, x: Framing.Bytes)
    requires Inv(s, db)
    ensures var r := ProcessFrame(s, db, frame, env);
            ProcessFrame(s.(buffer := x), db, frame, env) == r.(s := r.s.(buffer := x))
  {
    match env.decode(frame)
    case Parsed(m) =>
      if s.authenticated {
        MessageIgnoresBuffer(s, db, m, env, x);
      } else {
        AuthenticateIgnoresBuffer(s, db, m, env, x);
      }
    case _ =>
  }

  lemma AuthenticateIgnoresBuffer(s: Session, db: Db, m: Json, env: Env, x: Framing.Bytes)
    requires Inv(s, db) && !s.authenticated
    ensures var r := Authenticate(s, db, m, env);
            Authenticate(s.(buffer := x), db, m, env) == r.(s := r.s.(buffer := x))
  {
  }

  lemma MessageIgnoresBuffer(s: Session, db: Db, m: Json, env: Env, x: Framing.Bytes)
    requires Inv(s, db) && s.authenticated
    ensures var r := ProcessMessage(s, db, m, env);
            ProcessMessage(s.(buffer := x), db, m, env) == r.(s := r.s.(buffer := x))
  {
    if m.JObj? {
      DataIgnoresBuffer(s, db, m.fields, env, x);
      StatusIgnoresBuffer(s, db, m.fields, env, x);
    }
  }

  lemma DataIgnoresBuffer(s: Session, db: Db, fields: seq<Field>, env: Env, x: Framing.Bytes)
    requires Inv(s, db) && s.authenticated
    ensures var r := ProcessData(s, db, fields, env);
            ProcessData(s.(buffer := x), db, fields, env) == r.(s := r.s.(buffer := x))
  {
  }

  lemma StatusIgnoresBuffer(s: Session, db: Db, fields: seq<Field>, env: Env, x: Framing.Bytes)
    requires Inv(s, db) && s.authenticated
    ensures var r := ProcessStatus(s, db, fields, env);
            ProcessStatus(s.(buffer := x), db, fields, env) == r.(s := r.s.(buffer := x))
  {
  }

  /** Handling `f1 + f2` is handling `f1`, then `f2`. */
  lemma {:induction false} FramesAppend(s: Session, db: Db, f1: seq<Framing.Bytes>, f2: seq<Framing.Bytes>, env: Env)
    requires Inv(s, db)
    ensures var a := ProcessFrames(s, db, f1, env);
            var b := ProcessFrames(a.s, a.db, f2, env);
            ProcessFrames(s, db, f1 + f2, env) == Step(b.s, b.db, a.events + b.events, a.created + b.created)
    decreases |f1|
  {
    if |f1| == 0 {
      assert f1 + f2 == f2;
    } else {
      var first := ProcessFrame(s, db, f1[0], env);
      FramesUnfold(s, db, f1 + f2, env, f1[0], f1[1..] + f2);
      FramesUnfold(s, db, f1, env, f1[0], f1[1..]);
      FramesAppend(first.s, first.db, f1[1..], f2, env);
      var a := ProcessFrames(first.s, first.db, f1[1..], env);
      var b := ProcessFrames(a.s, a.db, f2, env);
      AssociativeSteps(first.events, a.events, b.events);
      AssociativeReadings(first.created, a.created, b.created);
    }
  }

  /** One step of the frame loop, for a list whose head and tail are given. */
  lemma FramesUnfold(s: Session, db: Db, frames: seq<Framing.Bytes>, env: Env, head: Framing.Bytes, tail: seq<Framing.Bytes>)
    requires Inv(s, db) && |frames| > 0 && frames[0] == head && frames[1..] == tail
    ensures var first := ProcessFrame(s, db, head, env);
            var rest := ProcessFrames(first.s, first.db, tail, env);
            ProcessFrames(s, db, frames, env) == Step(rest.s, rest.db, first.events + rest.events, first.created + rest.created)
  {
  }

  lemma AssociativeSteps(x: seq<Event>, y: seq<Event>, z: seq<Event>)
    ensures x + (y + z) == x + y + z
  {
  }

  lemma AssociativeReadings(x: seq<SensorData>, y: seq<SensorData>, z: seq<SensorData>)
    ensures x + (y + z) == x + y + z
  {
  }

  /** How the bytes are cut into chunks does not matter below the cap:
      receiving `a` and then `b` sends the same events, in the same order,
      and leaves the same session and store as receiving `a + b` at once. */
  lemma ChunkingDoesNotMatter(s: Session, db: Db, a: Framing.Bytes, b: Framing.Bytes, env: Env)
    requires Inv(s, db)
    requires |s.buffer + a + b| <= env.maxSize
    ensures var one := Receive(s, db, a, env);
            var two := Receive(one.s, one.db, b, env);
            var both := Receive(s, db, a + b, env);
            two.s == both.s && two.db == both.db && one.events + two.events == both.events
            && one.created + two.created == both.created
  {
    var (f1, r1) := Framing.SplitFrames(s.buffer + a);
    var (f2, r2) := Framing.SplitFrames(r1 + b);
    var p := ProcessFrames(s, db, f1, env);
    var q := ProcessFrames(p.s, p.db, f2, env);
    ChunkAfterChunk(s, db, a, b, env);
    WholeChunk(s, db, a, b, env, f1, r1, f2, r2);
  }

  /** Receiving `a` and then `b` handles the frames of the first split,
      then those of the second. */
  lemma ChunkAfterChunk(s: Session, db: Db, a: Framing.Bytes, b: Framing.Bytes, env: Env)
    requires Inv(s, db)
    requires |s.buffer + a + b| <= env.maxSize
    ensures var (f1, r1) := Framing.SplitFrames(s.buffer + a);
            var (f2, r2) := Framing.SplitFrames(r1 + b);
            var p := ProcessFrames(s, db, f1, env);
            var q := ProcessFrames(p.s, p.db, f2, env);
            var one := Receive(s, db, a, env);
            one == p.(s := p.s.(buffer := r1))
            && Receive(one.s, one.db, b, env) == q.(s := q.s.(buffer := r2))
  {
    var (f1, r1) := Framing.SplitFrames(s.buffer + a);
    var (f2, r2) := Framing.SplitFrames(r1 + b);
    assert |r1 + b| <= |s.buffer + a + b| by {
      assert |Framing.Terminated(f1) + r1| == |s.buffer + a|;
    }
    var p := ProcessFrames(s, db, f1, env);
    ReceiveHandles(s, db, a, env);
    var one := Receive(s, db, a, env);
    ReceiveHandles(one.s, one.db, b, env);
    BufferIsCarried(p.s, p.db, f2, env, r1);
  }

  /** Receiving `a + b` at once handles the frames of both splits in
      order. */
  lemma WholeChunk(s: Session, db: Db, a: Framing.Bytes, b: Framing.Bytes, env: Env,
                   f1: seq<Framing.Bytes>, r1: Framing.Bytes, f2: seq<Framing.Bytes>, r2: Framing.Bytes)
    requires Inv(s, db)
    requires |s.buffer + a + b| <= env.maxSize
    requires Framing.SplitFrames(s.buffer + a) == (f1, r1) && Framing.SplitFrames(r1 + b) == (f2, r2)
    ensures var p := ProcessFrames(s, db, f1, env);
            var q := ProcessFrames(p.s, p.db, f2, env);
            Receive(s, db, a + b, env) == Step(q.s.(buffer := r2), q.db, p.events + q.events, p.created + q.created)
  {
    SplitOfWhole(s.buffer, a, b, f1, r1, f2, r2);
    ReceiveHandlesSplit(s, db, a + b, env, f1 + f2, r2);
    FramesAppend(s, db, f1, f2, env);
  }

  /** The chunking invariance of the framing, for the chunk `a + b`. */
  lemma SplitOfWhole(buffer: Framing.Bytes, a: Framing.Bytes, b: Framing.Bytes,
                     f1: seq<Framing.Bytes>, r1: Framing.Bytes, f2: seq<Framing.Bytes>, r2: Framing.Bytes)
    requires Framing.SplitFrames(buffer + a) == (f1, r1) && Framing.SplitFrames(r1 + b) == (f2, r2)
    ensures Framing.SplitFrames(buffer + (a + b)) == (f1 + f2, r2)
  {
    Framing.ChunkingInvariance(buffer, a, b, f1, r1, f2, r2);
    Reassociated(buffer, a, b, f1 + f2, r2);
  }

  lemma Reassociated(buffer: Framing.Bytes, a: Framing.Bytes, b: Framing.Bytes, f: seq<Framing.Bytes>, r: Framing.Bytes)
    requires Framing.SplitFrames(buffer + a + b) == (f, r)
    ensures Framing.SplitFrames(buffer + (a + b)) == (f, r)
  {
    Associative(buffer, a, b);
  }

  lemma Associative(x: Framing.Bytes, y: Framing.Bytes, z: Framing.Bytes)
    ensures x + (y + z) == x + y + z
  {
  }

  /** `ReceiveHandles` for a known split. */
  lemma ReceiveHandlesSplit(s: Session, db: Db, c: Framing.Bytes, env: Env, f: seq<Framing.Bytes>, r: Framing.Bytes)
    requires Inv(s, db) && |s.buffer + c| <= env.maxSize
    requires Framing.SplitFrames(s.buffer + c) == (f, r)
    ensures var p := ProcessFrames(s, db, f, env);
            Receive(s, db, c, env) == p.(s := p.s.(buffer := r))
  {
    ReceiveHandles(s, db, c, env);
  }

  /** Below the cap, receiving is handling the complete frames and keeping
      the tail. */
  lemma ReceiveHandles(s: Session, db: Db, c: Framing.Bytes, env: Env)
    requires Inv(s, db) && |s.buffer + c| <= env.maxSize
    ensures var (f, r) := Framing.SplitFrames(s.buffer + c);
            var p := ProcessFrames(s, db, f, env);
            Receive(s, db, c, env) == p.(s := p.s.(buffer := r))
  {
    var (f, r) := Framing.SplitFrames(s.buffer + c);
    BufferIsCarried(s, db, f, env, r);
  }
}
