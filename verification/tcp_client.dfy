/** The device side of the TCP protocol: the example client's connection
    flags, the messages it writes (each one JSON text plus the delimiter),
    the splitting of what it receives, and the gating of every send on the
    connection and authentication flags. The socket is not modelled: a
    failed write and the bytes each read returns before the
    timeout are parameters. */
module TcpClient {
  import opened Wrappers
  import opened Json
  import opened Devices
  import Framing
  import JsonText
  import TcpSession

  /** The client's state. `hasSocket` is set once a connection was tried,
      even if it failed. */
  datatype Client = Client(deviceId: string, deviceKey: string, hasSocket: bool, connected: bool,
                           authenticated: bool, buffer: Framing.Bytes)

  function NewClient(deviceId: string, deviceKey: string): (c: Client)
    ensures !c.connected && !c.authenticated && c.buffer == []
  {
    Client(deviceId, deviceKey, false, false, false, [])
  }

  /** `connect`: `refused` is the socket's failure to connect. */
  function Connect(c: Client, refused: bool): (r: Client)
    ensures r.hasSocket && r.connected == (c.connected || !refused)
    ensures r.authenticated == c.authenticated && r.buffer == c.buffer
  {
    c.(hasSocket := true, connected := c.connected || !refused)
  }

  /** The outcome of a write: the new state, the method's result, and the
      bytes handed to the socket. */
  datatype Sent = Sent(c: Client, ok: bool, wrote: Framing.Bytes)

  /** `send_message`: nothing is written when not connected; otherwise the
      message's JSON text and the delimiter, unless the write raises, which
      marks the connection lost. */
  function SendMessage(c: Client, msg: Json, writeFails: bool): (r: Sent)
    ensures r.ok <==> c.connected && !writeFails
    ensures r.ok ==> r.c == c && r.wrote == JsonText.Wire(msg) + [Framing.Newline]
    ensures !r.ok ==> r.wrote == [] && !r.c.connected
    ensures r.c.authenticated == c.authenticated
  {
    if !c.connected then Sent(c, false, [])
    else if writeFails then Sent(c.(connected := false), false, [])
    else Sent(c, true, JsonText.Wire(msg) + [Framing.Newline])
  }

  /** A frame the client could not use: bad JSON frames are skipped, a
      frame that is not UTF-8 aborts the read. */
  datatype Drained = Drained(messages: seq<Json>, buffer: Framing.Bytes, ok: bool)

  /** The loop of `receive_data` over the buffer. A frame that is not
      UTF-8 raises out of the loop, after the buffer was already advanced
      past it. */
  function Drain(buffer: Framing.Bytes, decode: Framing.Bytes -> Decoded): (r: Drained)
    ensures r.ok ==> Framing.Newline !in r.buffer
    ensures |r.buffer| <= |buffer|
    decreases |buffer|
  {
    if Framing.Newline !in buffer then Drained([], buffer, true)
    else
      var i := Framing.FirstNewline(buffer);
      var frame, rest := buffer[..i], buffer[i + 1..];
      match decode(frame)
      case BadUtf8 => Drained([], rest, false)
      case BadJson => Drain(rest, decode)
      case Parsed(m) =>
        var more := Drain(rest, decode);
        Drained([m] + more.messages, more.buffer, more.ok)
  }

  /** The messages of a list of frames that parse, in order; frames that
      are not JSON are dropped. */
  function Usable(frames: seq<Framing.Bytes>, decode: Framing.Bytes -> Decoded): (r: seq<Json>)
    ensures |r| <= |frames|
  {
    if |frames| == 0 then []
    else match decode(frames[0])
      case Parsed(m) => [m] + Usable(frames[1..], decode)
      case _ => Usable(frames[1..], decode)
  }

  /** Unless a frame is not UTF-8, the read loop is the server's splitter
      followed by dropping the frames that are not JSON: the same frames,
      in the same order, and the same tail left in the buffer. */
  lemma {:induction false} DrainIsSplitThenFilter(b: Framing.Bytes, decode: Framing.Bytes -> Decoded)
    requires forall k :: 0 <= k < |Framing.SplitFrames(b).0| ==> decode(Framing.SplitFrames(b).0[k]) != BadUtf8
    ensures Drain(b, decode) == Drained(Usable(Framing.SplitFrames(b).0, decode), Framing.SplitFrames(b).1, true)
    decreases |b|
  {
    if Framing.Newline in b {
      var i := Framing.FirstNewline(b);
      var next := Framing.SplitFrames(b[i + 1..]);
      var frames := [b[..i]] + next.0;
      assert Framing.SplitFrames(b) == (frames, next.1);
      assert frames[1..] == next.0;
      forall k | 0 <= k < |next.0| ensures decode(next.0[k]) != BadUtf8 {
        assert next.0[k] == frames[k + 1];
      }
      assert decode(b[..i]) != BadUtf8 by { assert frames[0] == b[..i]; }
      DrainIsSplitThenFilter(b[i + 1..], decode);
    }
  }

  /** A frame that is not UTF-8 ends the read loop with the connection
      marked lost, whatever frames follow it. */
  lemma {:induction false} BadTextStopsTheLoop(b: Framing.Bytes, decode: Framing.Bytes -> Decoded, k: nat)
    requires k < |Framing.SplitFrames(b).0| && decode(Framing.SplitFrames(b).0[k]) == BadUtf8
    ensures !Drain(b, decode).ok
    decreases |b|
  {
    var i := Framing.FirstNewline(b);
    var next := Framing.SplitFrames(b[i + 1..]);
    var frames := [b[..i]] + next.0;
    assert Framing.SplitFrames(b) == (frames, next.1);
    if k > 0 {
      assert frames[k] == next.0[k - 1];
      if decode(b[..i]) != BadUtf8 {
        BadTextStopsTheLoop(b[i + 1..], decode, k - 1);
      }
    }
  }

  /** Frames that all parse are all kept. */
  lemma {:induction false} UsableKeepsParsed(frames: seq<Framing.Bytes>, decode: Framing.Bytes -> Decoded, msgs: seq<Json>)
    requires |msgs| == |frames|
    requires forall k :: 0 <= k < |frames| ==> decode(frames[k]) == Parsed(msgs[k])
    ensures Usable(frames, decode) == msgs
  {
    if |frames| > 0 {
      assert decode(frames[0]) == Parsed(msgs[0]);
      UsableKeepsParsed(frames[1..], decode, msgs[1..]);
      assert msgs == [msgs[0]] + msgs[1..];
    }
  }

  /** `receive_data`: `data` is what one `recv` returned, `None` for a
      timeout. An empty read means the server closed the connection. */
  function ReceiveData(c: Client, data: Option<Framing.Bytes>, decode: Framing.Bytes -> Decoded): (r: (Client, seq<Json>))
    ensures !c.connected ==> r == (c, [])
    ensures data == Some([]) ==> !r.0.connected && r.1 == []
    ensures data.None? ==> r == (c, [])
    ensures data.Some? && r.0.connected ==> Framing.Newline !in r.0.buffer
    ensures r.0.authenticated == c.authenticated
    ensures r.0 == c.(buffer := r.0.buffer, connected := r.0.connected)
    ensures r.0.connected ==> c.connected
  {
    if !c.connected then (c, [])
    else match data
      case None => (c, [])
      case Some(bytes) =>
        if bytes == [] then (c.(connected := false), [])
        else
          var d := Drain(c.buffer + bytes, decode);
          (c.(buffer := d.buffer, connected := d.ok), d.messages)
  }

  /** `send_status`. */
  function StatusMessage(c: Client, status: string, now: int): Json {
    JObj([Field("type", JStr("status")), Field("device_id", JStr(c.deviceId)),
          Field("timestamp", JInt(now)), Field("status", JStr(status))])
  }

  function SendStatus(c: Client, status: string, now: int, writeFails: bool): (r: Sent)
    ensures !c.connected ==> !r.ok && r.wrote == []
    ensures r.ok ==> r.wrote == JsonText.Wire(StatusMessage(c, status, now)) + [Framing.Newline]
  {
    SendMessage(c, StatusMessage(c, status, now), writeFails)
  }

  /** The readings of one `send_sensor_data` (random in the source). */
  datatype Readings = Readings(temperature: Json, humidity: Json, light: Json)

  function DataMessage(c: Client, now: int, v: Readings): Json {
    JObj([Field("type", JStr("data")), Field("device_id", JStr(c.deviceId)), Field("timestamp", JInt(now)),
          Field("temperature", v.temperature), Field("humidity", v.humidity), Field("light", v.light)])
  }

  /** `send_sensor_data`: refused unless connected and authenticated. */
  function SendSensorData(c: Client, now: int, v: Readings, writeFails: bool): (r: Sent)
    ensures r.ok ==> c.connected && c.authenticated
    ensures !(c.connected && c.authenticated) ==> r == Sent(c, false, [])
    ensures r.ok ==> r.wrote == JsonText.Wire(DataMessage(c, now, v)) + [Framing.Newline]
  {
    if !c.connected || !c.authenticated then Sent(c, false, [])
    else SendMessage(c, DataMessage(c, now, v), writeFails)
  }

  function AuthMessage(c: Client, now: int): Json {
    JObj([Field("device_id", JStr(c.deviceId)), Field("device_key", JStr(c.deviceKey)), Field("timestamp", JInt(now))])
  }

  /** `wait_for_response`: `polls` are the results of the `recv` calls made
      before the timeout, one per poll (`None` for a poll that timed out).
      The first read that yields any message ends the wait with that
      message; the other messages of the same read are dropped, while the
      bytes after its last complete frame stay in the buffer. */
  function WaitForResponse(c: Client, polls: seq<Option<Framing.Bytes>>, decode: Framing.Bytes -> Decoded)
    : (r: (Client, Option<Json>))
    ensures r.0 == c.(buffer := r.0.buffer, connected := r.0.connected)
    ensures r.0.connected ==> c.connected
    ensures !c.connected ==> r == (c, None)
    ensures (forall k :: 0 <= k < |polls| ==> polls[k].None?) ==> r == (c, None)
    decreases |polls|
  {
    if |polls| == 0 then (c, None)
    else
      var (c1, msgs) := ReceiveData(c, polls[0], decode);
      if msgs != [] then (c1, Some(msgs[0]))
      else
        var r := WaitForResponse(c1, polls[1..], decode);
        assert (forall k :: 0 <= k < |polls| ==> polls[k].None?) ==>
                 forall k :: 0 <= k < |polls[1..]| ==> polls[1..][k].None? by {
          if forall k :: 0 <= k < |polls| ==> polls[k].None? {
            forall k | 0 <= k < |polls[1..]| ensures polls[1..][k].None? {
              assert polls[1..][k] == polls[k + 1];
            }
          }
        }
        r
  }

  /** A read that brings the reply followed by the start of another message
      ends the wait with the reply and leaves that start in the buffer. */
  lemma FirstReplyKeepsTheTail(c: Client, m: Json, tail: Framing.Bytes, later: seq<Option<Framing.Bytes>>,
                               decode: Framing.Bytes -> Decoded)
    requires c.connected && c.buffer == [] && Framing.Newline !in tail
    requires decode(JsonText.Wire(m)) == Parsed(m)
    ensures WaitForResponse(c, [Some(JsonText.Wire(m) + [Framing.Newline] + tail)] + later, decode)
            == (c.(buffer := tail), Some(m))
  {
    var bytes := JsonText.Wire(m) + [Framing.Newline] + tail;
    TcpSession.ReplyIsOneFrame(m, tail);
    DrainIsSplitThenFilter(bytes, decode);
    assert [JsonText.Wire(m)][1..] == [];
    assert Usable([JsonText.Wire(m)], decode) == [m];
    assert c.buffer + bytes == bytes;
    assert bytes != [] by { assert bytes[|JsonText.Wire(m)|] == Framing.Newline; }
    assert ([Some(bytes)] + later)[0] == Some(bytes);
  }

  /** A server that closes the connection before replying ends the wait
      with no reply and the client disconnected. */
  lemma CloseBeforeReplyDisconnects(c: Client, later: seq<Option<Framing.Bytes>>, decode: Framing.Bytes -> Decoded)
    requires c.connected
    ensures var r := WaitForResponse(c, [Some([])] + later, decode);
            !r.0.connected && r.1.None? && r.0.buffer == c.buffer
  {
    assert ([Some([])] + later)[1..] == later;
  }

  /** The first message `wait_for_response` saw is an `auth_success`. */
  predicate IsAuthSuccess(response: Option<Json>) {
    response.Some? && response.value.JObj? && Get(response.value.fields, "type") == Some(JStr("auth_success"))
  }

  /** `authenticate`: send the credentials, whether or not the write
      succeeds, and wait for the first reply over `polls`.
      Anything but an object of type `auth_success` fails, including a
      missing reply and a reply that is not an object; a failed write has
      dropped the connection, so no reply comes. The client keeps the
      buffer and connection state the wait left. */
  function Authenticate(c: Client, now: int, writeFails: bool, polls: seq<Option<Framing.Bytes>>,
                        decode: Framing.Bytes -> Decoded): (r: (Sent, bool))
    ensures r.1 <==> c.connected && !writeFails && IsAuthSuccess(WaitForResponse(c, polls, decode).1)
    ensures r.0.c.authenticated <==> c.authenticated || r.1
    ensures c.connected && !writeFails ==>
              r.0.wrote == JsonText.Wire(AuthMessage(c, now)) + [Framing.Newline]
              && r.0.c == WaitForResponse(c, polls, decode).0.(authenticated := c.authenticated || r.1)
    ensures c.connected && writeFails ==> !r.0.c.connected && r.0.wrote == []
    ensures !c.connected ==> r == (Sent(c, false, []), false)
  {
    if !c.connected then (Sent(c, false, []), false)
    else
      var sent := SendMessage(c, AuthMessage(c, now), writeFails);
      var (c1, response) := WaitForResponse(sent.c, polls, decode);
      if IsAuthSuccess(response) then (sent.(c := c1.(authenticated := true)), true)
      else (sent.(c := c1), false)
  }

  /** `disconnect`: with a socket, send status `offline` (if still
      connected), then clear both flags. */
  function Disconnect(c: Client, now: int, writeFails: bool): (r: Sent)
    ensures c.hasSocket ==> !r.c.connected && !r.c.authenticated
    ensures !c.hasSocket ==> r == Sent(c, false, [])
    ensures c.hasSocket && c.connected && !writeFails ==>
              r.wrote == JsonText.Wire(StatusMessage(c, Offline, now)) + [Framing.Newline]
  {
    if !c.hasSocket then Sent(c, false, [])
    else
      var sent := SendStatus(c, Offline, now, writeFails);
      sent.(c := sent.c.(connected := false, authenticated := false))
  }

  /** The bytes of a run of messages written one after another. */
  function Written(msgs: seq<Json>): (r: Framing.Bytes)
    ensures r == Framing.Terminated(seq(|msgs|, k requires 0 <= k < |msgs| => JsonText.Wire(msgs[k])))
  {
    if |msgs| == 0 then []
    else
      var wires := seq(|msgs|, k requires 0 <= k < |msgs| => JsonText.Wire(msgs[k]));
      assert wires[1..] == seq(|msgs[1..]|, k requires 0 <= k < |msgs[1..]| => JsonText.Wire(msgs[1..][k]));
      JsonText.Wire(msgs[0]) + [Framing.Newline] + Written(msgs[1..])
  }

  /** What the client writes comes back one-for-one from the server's
      splitter: each message is one frame and nothing is left over. */
  lemma SentMessagesSplitOneForOne(msgs: seq<Json>)
    ensures Framing.SplitFrames(Written(msgs))
            == (seq(|msgs|, k requires 0 <= k < |msgs| => JsonText.Wire(msgs[k])), [])
  {
    var wires := seq(|msgs|, k requires 0 <= k < |msgs| => JsonText.Wire(msgs[k]));
    assert Framing.DelimiterFree(wires);
    Framing.SplitTerminated(wires, []);
    assert Framing.Terminated(wires) + [] == Written(msgs);
  }

  /** The server's replies, written one after another, are read back by
      the client as exactly those messages, provided `json.loads` inverts
      `json.dumps` on them. */
  lemma RepliesReadBack(c: Client, msgs: seq<Json>, decode: Framing.Bytes -> Decoded)
    requires c.connected && c.buffer == []
    requires forall k :: 0 <= k < |msgs| ==> decode(JsonText.Wire(msgs[k])) == Parsed(msgs[k])
    requires |msgs| > 0
    ensures ReceiveData(c, Some(Written(msgs)), decode) == (c, msgs)
  {
    var bytes := Written(msgs);
    WrittenIsNotEmpty(msgs);
    DrainWritten(msgs, decode);
    ReadAll(c, bytes, decode, msgs);
  }

  /** A read whose bytes all drain cleanly leaves the buffer empty and the
      connection up. */
  lemma ReadAll(c: Client, bytes: Framing.Bytes, decode: Framing.Bytes -> Decoded, msgs: seq<Json>)
    requires c.connected && c.buffer == [] && bytes != []
    requires Drain(bytes, decode) == Drained(msgs, [], true)
    ensures ReceiveData(c, Some(bytes), decode) == (c, msgs)
  {
    assert c.buffer + bytes == bytes;
  }

  /** At least one message writes at least one byte. */
  lemma WrittenIsNotEmpty(msgs: seq<Json>)
    requires |msgs| > 0
    ensures Written(msgs) != []
  {
    assert Written(msgs)[|JsonText.Wire(msgs[0])|] == Framing.Newline;
  }

  lemma DrainWritten(msgs: seq<Json>, decode: Framing.Bytes -> Decoded)
    requires forall k :: 0 <= k < |msgs| ==> decode(JsonText.Wire(msgs[k])) == Parsed(msgs[k])
    ensures Drain(Written(msgs), decode) == Drained(msgs, [], true)
  {
    var wires := seq(|msgs|, k requires 0 <= k < |msgs| => JsonText.Wire(msgs[k]));
    SentMessagesSplitOneForOne(msgs);
    DrainIsSplitThenFilter(Written(msgs), decode);
    UsableKeepsParsed(wires, decode, msgs);
  }

  /** The client's credentials authenticate a fresh server session when
      they are a stored device's, and the server's reply is the one the
      client accepts: the handshake completes on both sides. */
  lemma HandshakeCompletes(c: Client, now: int, db: Db, env: TcpSession.Env, decode: Framing.Bytes -> Decoded)
    requires c.connected && c.buffer == []
    requires FindByCredentials(db.devices, c.deviceId, c.deviceKey).Some?
    requires forall m :: decode(JsonText.Wire(m)) == Parsed(m)
    ensures var server := TcpSession.Authenticate(TcpSession.Fresh, db, AuthMessage(c, now), env);
            && server.s.authenticated
            && server.events[0].Send?
            && (!env.statusFails(server.s.device.value, Online) ==>
                  Authenticate(c, now, false, [Some(JsonText.Wire(server.events[0].msg) + [Framing.Newline])], decode).1)
  {
    var server := TcpSession.Authenticate(TcpSession.Fresh, db, AuthMessage(c, now), env);
    ServerAccepts(c, now, db, env);
    var reply := server.events[0].msg;
    FirstReplyKeepsTheTail(c, reply, [], [], decode);
    assert JsonText.Wire(reply) + [Framing.Newline] + [] == JsonText.Wire(reply) + [Framing.Newline];
    assert [Some(JsonText.Wire(reply) + [Framing.Newline])] + [] == [Some(JsonText.Wire(reply) + [Framing.Newline])];
  }

  /** The server authenticates a client holding a stored device's
      credentials. */
  lemma ServerAccepts(c: Client, now: int, db: Db, env: TcpSession.Env)
    requires FindByCredentials(db.devices, c.deviceId, c.deviceKey).Some?
    ensures var server := TcpSession.Authenticate(TcpSession.Fresh, db, AuthMessage(c, now), env);
            && server.s.authenticated && server.events[0].Send?
            && (!env.statusFails(server.s.device.value, Online) ==> IsAuthSuccess(Some(server.events[0].msg)))
  {
    var m := AuthMessage(c, now);
    GetUnique(m.fields, 0);
    GetUnique(m.fields, 1);
  }

  /** The client's status message is dispatched as a status message by an
      authenticated server session, and its data message is stored with the
      client's own timestamp. */
  lemma ClientMessagesAreDispatched(c: Client, now: int, status: string, v: Readings,
                                    s: TcpSession.Session, db: Db, env: TcpSession.Env)
    requires TcpSession.Inv(s, db) && s.authenticated
    ensures var m := StatusMessage(c, status, now);
            TcpSession.ProcessMessage(s, db, m, env) == TcpSession.ProcessStatus(s, db, m.fields, env)
    ensures var m := DataMessage(c, now, v);
            && TcpSession.ProcessMessage(s, db, m, env) == TcpSession.ProcessData(s, db, m.fields, env)
            && HasKey(m.fields, "timestamp")
  {
    StatusMessageIsStatus(c, status, now);
    DataMessageIsData(c, now, v);
  }

  lemma StatusMessageIsStatus(c: Client, status: string, now: int)
    ensures var m := StatusMessage(c, status, now);
            m.JObj? && Get(m.fields, "type") == Some(JStr("status"))
  {
    GetUnique(StatusMessage(c, status, now).fields, 0);
  }

  lemma DataMessageIsData(c: Client, now: int, v: Readings)
    ensures var m := DataMessage(c, now, v);
            m.JObj? && Get(m.fields, "type") == Some(JStr("data")) && HasKey(m.fields, "timestamp")
  {
    var dm := DataMessage(c, now, v);
    GetUnique(dm.fields, 0);
    assert dm.fields[2].key == "timestamp";
  }
}
