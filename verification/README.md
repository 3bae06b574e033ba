# DjangoNovaCloud ingestion path and rule engine, in Dafny

DjangoNovaCloud is an IoT platform. Devices report readings in one of two ways:

- over a TCP connection carrying newline-delimited JSON;
- over MQTT topics `novacloud/devices/<id>/data|status`.

The server stores every reading as a `SensorData` row. Every new row is offered to the rule engine. The rule engine's *strategies* compare the reading with typed thresholds along an ordered chain of `AND`/`OR` links. A strategy whose chain holds runs its actions and logs each one: an e-mail, an actuator command published over MQTT, or a web hook.

This project models that core as pure functions over immutable data and proves properties of it. The modules follow the program:

| module | what it models |
|---|---|
| `Wrappers` | `Option` and `Result` |
| `Text` | the string operations the core uses: `split`, `startswith`, `strip`, integer text |
| `Sorting` | a stable sort by key, the model of `order_by` |
| `Json` | decoded JSON values; the Python operations applied to them (`in`, indexing, truthiness, `float()`) |
| `JsonText` | `json.dumps` with default settings and its UTF-8 bytes |
| `Framing` | the byte buffer, its size cap and the newline framer |
| `Devices` | devices, sensors, actuators and readings; key defaulting, status choices, value display and serialisation |
| `Ingest` | the sensor-value normaliser and the all-or-nothing store shared by the TCP and MQTT paths |
| `History` | the sensor-history and actuator-detail read endpoints |
| `Rules` | condition evaluation, the condition chain, and per-action logging |
| `Actions` | the e-mail, actuator-command and web-hook actions |
| `Dispatch` | the `post_save` receiver that runs strategies for a new reading |
| `Forms` | the strategy, condition and action form validators and choice lists |
| `TcpSession` | the TCP consumer: buffer, authentication, message dispatch, replies, disconnect |
| `MqttBridge` | the server's MQTT client: connection flag, topic parsing, data and status handling, outbound publish |
| `TcpClient` | the example TCP device client, the encode half of the TCP protocol |
| `Simulator` | the MQTT device simulator, the encode half of the MQTT protocol |
| `Admin` | subordinate-user closure, the visible user set, client-IP selection |

Everything outside the program becomes a parameter of the operation that uses it:

- `json.loads`, as a function from bytes to parsed, not UTF-8, or not JSON;
- Python's `str()` of non-string JSON values;
- database write failures: the failure of a payload's ingestion transaction, and the failure of a device status save;
- the texts of exceptions;
- the clock;
- the broker's return codes;
- template rendering, which yields no text when a template does not compile;
- mail delivery;
- the HTTP response status.

Two behaviours worth knowing:

- **E-mail recipients.** The recipients are `recipient_email` plus the recipient user's e-mail. The project owner's e-mail is used only when both are absent (`strategy_engine/models.py:256-267`).
- **Non-object first message.** A first message on which `in` or indexing raises (a number, or a list holding both key strings) gets an `internal_error` reply and no close (`tcp_server/consumers.py:100-102`).

## Model

| member | source | states |
|---|---|---|
| Text.Split | mqtt_client/mqtt.py:123 | `topic.split('/')` always has at least one piece, and no piece contains the separator |
| Text.JoinSplit | mqtt_client/mqtt.py:123 | joining the pieces of a split with the separator gives back the original text |
| Text.SplitJoin | mqtt_client/device_simulator.py:55-58 | splitting the join of separator-free pieces gives back exactly those pieces |
| Text.TrimStart | admin_panel/utils.py:104 | `strip` removes exactly the leading whitespace: what it drops is all whitespace and what remains starts with a non-space |
| Text.TrimEnd | admin_panel/utils.py:104 | `strip` removes exactly the trailing whitespace: what it drops is all whitespace and what remains ends with a non-space |
| Sorting.SortBy | iot_devices/api_views.py:51-54 | `order_by('timestamp')` returns a permutation of the selected rows in non-decreasing key order |
| Sorting.SortedIsFixed | strategy_engine/models.py:42 | ordering rows that are already ordered changes nothing |
| Json.Get | tcp_server/consumers.py:115-116 | a dict lookup finds a value exactly when the key is present, and the value found is the one stored under that key |
| Json.Put | tcp_server/consumers.py:193-194 | after `message[key] = v` the key maps to `v` and every other key maps to what it did before |
| Json.ReplaceSpec | strategy_engine/models.py:322 | overwriting a present key changes its value and no other key's |
| Json.PyIn | tcp_server/consumers.py:109 | `key in message` is defined (no `TypeError`) exactly on objects, lists and strings; on an object it is true exactly when the key is present |
| Json.PyIndex | tcp_server/consumers.py:115-116 | `message[key]` with a text key yields a value exactly when the message is an object holding the key |
| Json.NumberValue | tcp_server/consumers.py:255-256 | `float(v)` of a JSON boolean is 1.0 or 0.0, of an integer its value, and of a float literal that literal's decimal |
| Json.ZeroIffMantissaZero | strategy_engine/models.py:272 | a decimal reading is zero, and so falsy, exactly when its mantissa is zero |
| JsonText.Dumps | tcp_server/consumers.py:281 | `json.dumps` text is printable ASCII, whatever the value |
| JsonText.EncodeAscii | tcp_server/consumers.py:282 | UTF-8 encoding of ASCII text gives one byte per character, carrying the same code |
| JsonText.Wire | tcp_server/tcp_client_example.py:126-129 | the encoded dump of any message contains no newline byte, so it is exactly one frame |
| Framing.SplitFrames | tcp_server/consumers.py:49-55 | the frame loop yields newline-free frames and a newline-free tail; frames, each followed by its delimiter, then the tail, make up the whole buffer |
| Framing.FirstNewline | tcp_server/consumers.py:50 | `buffer.find(delimiter)` is the position of the first newline |
| Framing.SplitTerminated | tcp_server/consumers.py:49-55 | splitting frames that were written each followed by a newline gives back exactly those frames and the tail (round trip) |
| Framing.ChunkingInvariance | tcp_server/consumers.py:40-55 | receiving bytes in two chunks yields the same frames, in order, and the same tail as receiving them at once |
| Framing.Receive | tcp_server/consumers.py:33-55 | the buffer overflows exactly when it would exceed the cap, and then keeps every byte; otherwise the frames and the kept tail account for every byte, and the tail is within the cap |
| Framing.CapIsInclusive | tcp_server/consumers.py:43-46 | a buffer of exactly the cap is accepted; one byte more overflows |
| Framing.OverflowIsSticky | tcp_server/consumers.py:40-46 | once the buffer is over the cap, every later chunk overflows too |
| Framing.CapAppliesBeforeSplitting | tcp_server/consumers.py:40-46 | the cap is checked before any frame is cut, so an over-cap chunk of empty frames is refused |
| Devices.NewDevice | iot_devices/models.py:24-46 | a new device has status `unregistered`, which is one of the status choices, and has never been seen |
| Devices.SaveDevice | iot_devices/models.py:56-60 | after `save` the key is non-empty; a non-empty key is kept; nothing but the key changes |
| Devices.FindDevice | mqtt_client/mqtt.py:169 | a lookup by `device_id` returns the first device with that id, and nothing exactly when no device has it |
| Devices.FindDeviceIsTheOnlyMatch | iot_devices/models.py:37-38 | since `device_id` is unique, a lookup returns the one device that carries the id |
| Devices.FindByCredentials | tcp_server/consumers.py:147-155 | the lookup by id and key finds a device holding both, and fails exactly when no device holds both |
| Devices.SetStatus | tcp_server/consumers.py:158-168 | a status update sets the device's status and `last_seen` and leaves every other device, sensor and reading unchanged |
| Devices.DisplayValue | iot_devices/models.py:115-124 | a reading is shown by its float, else its string, else 是/否 for its boolean, else 无数据 |
| Devices.SerializedValue | iot_devices/serializers.py:13-21 | the API value is the first slot that is not `None` (float, string, boolean; `False` kept as is), and `None` exactly when all three are `None` |
| Devices.SerializedAgreesWithDisplay | iot_devices/serializers.py:13-21 | the serializer and the display choose the same slot for every reading |
| Ingest.StatusValue | tcp_server/consumers.py:216-219 | the status column receives the text of any value but `null`, which it rejects; a string is stored verbatim |
| Ingest.Classify | tcp_server/consumers.py:255-260 | integers, floats and booleans land in the float slot as `float(v)` (a boolean as 1.0 or 0.0); everything else lands in the string slot as `str(v)`, a string as itself; the boolean slot is never written |
| Ingest.KeyedSensors | tcp_server/consumers.py:247-248 | the sensors a payload feeds are exactly the device's sensors whose value key the payload holds |
| Ingest.KeyedSensorsAppend | tcp_server/consumers.py:247-248 | the sensors are visited in store order: the keyed sensors of two runs of sensors are those of the first run followed by those of the second |
| Ingest.Normalize | mqtt_client/mqtt.py:177-193 | an object payload yields, in sensor order, one classified reading per device sensor whose key it holds, with consecutive keys and the server's time; a non-object payload fails exactly when `in` or indexing would raise for one of the device's sensors |
| Ingest.Store | tcp_server/consumers.py:240-270 | the store succeeds exactly when nothing fails; on success the device is online with the current `last_seen` and the new readings are appended; on failure nothing changes |
| History.WindowsAreOrdered | iot_devices/api_views.py:37-48 | the five known periods reach strictly further back in order, and an unknown period reaches back as far as `24h` |
| History.First | iot_devices/api_views.py:23 | a lookup by key returns a matching row, the first one, and nothing exactly when no row matches |
| History.OwnerOf | iot_devices/api_views.py:24 | the owner found is the owner of the project of the device the row hangs on |
| History.Recent | iot_devices/api_views.py:51-53 | the filter keeps exactly this sensor's readings at or after the start |
| History.LaterStartSelectsFewer | iot_devices/api_views.py:51-53 | a later start selects a sub-multiset of the readings |
| History.OwnedSensor | iot_devices/api_views.py:21-26 | the sensor is returned exactly when it exists and the caller owns it |
| History.PageFor | iot_devices/api_views.py:37-66 | the page echoes the period and ends now; it starts one window before now and holds the readings in that window |
| History.InWindow | iot_devices/api_views.py:51-54 | the result is exactly this sensor's readings at or after the start, in ascending time |
| History.SensorHistory | iot_devices/api_views.py:28-66 | not found exactly when the caller does not own the sensor; otherwise a page for the given period (`24h` if none) holding exactly the readings in the window, in ascending time |
| History.UnknownPeriodShowsTheDefaultWindow | iot_devices/api_views.py:33-48 | no period answers as `24h`, and an unknown period shows the `24h` readings while echoing the period given |
| History.SameWindowSamePage | iot_devices/api_views.py:37-48 | two periods with the same reach give the same page, apart from the period echoed |
| History.ShorterPeriodShowsFewer | iot_devices/api_views.py:37-54 | a shorter period never shows a reading that a longer one hides |
| History.PagesAreNested | iot_devices/api_views.py:37-54 | a shorter window's page is contained in a longer window's page |
| History.InWindowIsMonotone | iot_devices/api_views.py:51-54 | a later start shows a sub-multiset of the readings |
| History.ActuatorDetail | iot_devices/api_views.py:74-85 | an actuator is returned only when it exists and the caller owns it, and then it is returned; a missing or foreign actuator is not found |
| Rules.ThresholdValue | strategy_engine/models.py:143-151 | the threshold is the slot the type names, and `None` for an unknown type or an empty slot |
| Rules.StrLessTotal | strategy_engine/models.py:177-188 | string comparison is a strict total order, as Python's is |
| Rules.Evaluate | strategy_engine/models.py:153-190 | for each type, the condition holds exactly when the reading's slot of that type and the threshold are both present and the operator relates them; an unknown type, an unknown operator or a missing threshold never holds |
| Rules.Combine | strategy_engine/models.py:58-67 | with a running value, `AND`/`OR` apply Python's `and`/`or`; from `None`, `AND` keeps `None`, `OR` adopts the new result, and a null link changes nothing |
| Rules.Ordered | strategy_engine/models.py:42 | conditions are visited as a permutation of the strategy's conditions, in ascending id |
| Rules.WalkTrueNeedsWitness | strategy_engine/models.py:47-73 | the chain ends true only when some condition about the reading's sensor holds |
| Rules.EvaluateConditions | strategy_engine/models.py:28-73 | a disabled strategy, a reading from another device, or no conditions gives false; true needs a holding condition |
| Rules.WalkIsFold | strategy_engine/models.py:47-73 | when every condition is about the reading's sensor, the chain equals the left fold of the links over the conditions' results |
| Rules.FoldAllAnd | strategy_engine/models.py:64-65 | a chain linked only by `AND` is true exactly when every condition holds |
| Rules.FoldAnyOr | strategy_engine/models.py:66-67 | a chain linked only by `OR` is true exactly when some condition holds |
| Rules.AllAndFiresIffEveryConditionHolds | strategy_engine/models.py:28-73 | an enabled strategy whose conditions are all about the reading and linked by `AND` fires exactly when all of them hold |
| Rules.AllOrFiresIffSomeConditionHolds | strategy_engine/models.py:28-73 | an enabled strategy whose conditions are all about the reading and linked by `OR` fires exactly when one of them holds |
| Rules.WalkStaysNone | strategy_engine/models.py:58-65 | when the first condition is skipped, an `AND` chain stays `None` to the end |
| Rules.SkippedHeadNeverFires | strategy_engine/models.py:58-73 | an `AND` chain whose first condition is about another sensor never fires, whatever the later conditions say |
| Rules.SkippedConditionLendsItsLink | strategy_engine/models.py:62-67 | a skipped condition's link still joins its neighbours: `a OR (skipped b) AND c` evaluates as `a and c` |
| Rules.RunActions | strategy_engine/models.py:75-100 | one log per action, in order, each naming the strategy, the reading and the action; it records success exactly when that action did not fail, with the failure's reason otherwise, whatever the other actions did |
| Rules.ActionsAreIsolated | strategy_engine/models.py:80-100 | running two lists of actions logs what running each list alone logs, concatenated: no action affects another |
| Actions.Recipients | strategy_engine/models.py:256-267 | the recipients are the non-empty recipient e-mail and the recipient user's e-mail; the owner's e-mail only when neither is set; the list is empty exactly when there is no explicit recipient and the owner has no e-mail |
| Actions.ContextValue | strategy_engine/models.py:272 | `value_float or value_string or value_boolean`: a zero float and an empty string fall through to the next slot |
| Actions.ContextAgreesWithSerializerWhenTruthy | strategy_engine/models.py:272 | when the chosen slot is truthy, the template context value is the serializer's value |
| Actions.ZeroReadingFallsThrough | strategy_engine/models.py:272 | a reading of 0.0 serialises as 0.0, but the template context sees `None` |
| Actions.SendEmailNotification | strategy_engine/models.py:250-297 | no recipient is an error; then a subject or body template that does not compile is an error, the subject's first; otherwise the mail goes to exactly the recipients, with the rendered subject and body, and succeeds exactly when delivery does |
| Actions.CommandData | strategy_engine/models.py:311-322 | a non-JSON command becomes `{command_key: command}`; a JSON object keeps its members; a JSON non-object fails; `command` is then set to `control_actuator` |
| Actions.CommandKeyCollision | strategy_engine/models.py:317-322 | when the actuator's command key is `command`, the command text is overwritten by `control_actuator` |
| Actions.NonObjectCommandFails | strategy_engine/models.py:314-322 | a command that parses as JSON other than an object (a number, a boolean, a list) cannot take the `command` member and fails, whatever the command key |
| Actions.ControlActuatorAction | strategy_engine/models.py:301-334 | no actuator or no command is an error, and so is a command that parses to JSON other than an object; a disconnected bridge fails; with a connected bridge, the command payload is published on the device's command topic and the action succeeds exactly when the broker accepts it |
| Actions.DefaultPayload | strategy_engine/models.py:380-396 | the default web-hook payload is the five-member `strategy_triggered` event carrying the context value under `sensor.value` |
| Actions.WebhookRequest | strategy_engine/models.py:343-403 | no URL is an error; the method is GET exactly when configured so; the payload is the default one without a template; else a template that does not compile is an error, and so is rendered text that does not parse; otherwise the payload is the parsed text |
| Actions.CallWebhook | strategy_engine/models.py:338-407 | the call succeeds exactly when the request can be built and the response is ok |
| Actions.Execute | strategy_engine/models.py:238-248 | each action type runs its own handler and produces only its own effect; an unknown type does nothing |
| Dispatch.StrategyLogs | strategy_engine/signals.py:39-50 | a strategy writes logs only when it fires, then one per action, all naming it |
| Dispatch.RunAll | strategy_engine/signals.py:39-50 | every log written comes from one of the strategies visited; if none writes, nothing is written |
| Dispatch.RunStrategies | strategy_engine/signals.py:39-50 | every log comes from a strategy that fires on the reading; if none fires, nothing is logged |
| Dispatch.EvaluateStrategies | strategy_engine/signals.py:11-50 | an update (not a creation) does nothing; every log comes from a firing strategy; with no enabled strategy on the device, nothing happens |
| Dispatch.StrategiesAreIsolated | strategy_engine/signals.py:39-50 | the strategies run independently: running two lists logs what each does alone, concatenated |
| Dispatch.OneStrategy | strategy_engine/signals.py:42-45 | a single strategy logs its actions exactly when its conditions hold |
| Dispatch.BooleanConditionNeedsBooleanSlot | strategy_engine/models.py:164-174 | a boolean condition never holds on a reading without a boolean value |
| Dispatch.IngestedReadingsNeverSatisfyBooleanConditions | tcp_server/consumers.py:255-260 | no reading stored from a device payload ever satisfies a strategy whose conditions are all boolean |
| Forms.ConditionErrors | strategy_engine/forms.py:105-121 | a float or boolean threshold is required to be present (0.0 and `False` pass); a string threshold must be non-empty; other types are not checked |
| Forms.AcceptedConditionHasThreshold | strategy_engine/forms.py:105-121 | a condition the form accepts has a threshold for the engine to compare with |
| Forms.ActionErrors | strategy_engine/forms.py:182-207 | an e-mail needs subject and body, an actuator command needs actuator and command, a web hook needs a URL; one error per missing field |
| Forms.AcceptedActionHasItsFields | strategy_engine/forms.py:182-207 | an action the form accepts never fails for a missing actuator, command or URL, and sends its own templates |
| Forms.SensorChoices | strategy_engine/forms.py:86-100 | the sensor choices are exactly the sensors of the strategy's trigger device, and none without a strategy |
| Forms.ChosenSensorPassesDeviceCheck | strategy_engine/forms.py:86-100 | a reading of a chosen sensor always passes the engine's trigger-device check |
| Forms.ActuatorChoices | strategy_engine/forms.py:161-180 | the actuator choices are exactly the actuators on devices of the strategy's project |
| Forms.CleanName | strategy_engine/forms.py:43-54 | a name is rejected exactly when it is non-empty and another strategy of the project, not the one being edited, already has it |
| Forms.CreatePreservesUniqueNames | strategy_engine/forms.py:43-54 | adding a strategy whose name passed keeps names unique within each project |
| Forms.EditPreservesUniqueNames | strategy_engine/forms.py:43-54 | renaming a strategy to a name that passed keeps names unique within each project |
| Forms.OwnNameAccepted | strategy_engine/forms.py:50-51 | an edited strategy may keep its own name |
| TcpSession.WithDeviceId | tcp_server/consumers.py:278-279 | the device id is added to a reply only when the reply has none and the session's id is truthy |
| TcpSession.ErrorReply | tcp_server/consumers.py:286-305 | an error reply has type `error` and the given code, and carries the device id exactly when the session's id is truthy |
| TcpSession.ErrorMembers | tcp_server/consumers.py:291-300 | the error members carry type `error` and the code, and a device id exactly when a truthy one is known |
| TcpSession.Response | tcp_server/consumers.py:272-284 | a response keeps the type it was given |
| TcpSession.Fail | tcp_server/consumers.py:286-305 | a failed step sends one error reply and changes nothing |
| TcpSession.Refuse | tcp_server/consumers.py:109-113 | a refused step sends one error reply, then requests a close, and changes nothing |
| TcpSession.Validate | tcp_server/consumers.py:147-155 | the device found holds the id and key sent; no match means no device holds both |
| TcpSession.Authenticate | tcp_server/consumers.py:104-144 | the session authenticates exactly when both credentials are present and match a device; then the device goes online and `auth_success` is the only reply, unless that write fails, which leaves the session authenticated and the store unchanged and sends `auth_error` and a close; otherwise nothing changes, one error is sent, and a refusal of a well-formed message also closes |
| TcpSession.ProcessData | tcp_server/consumers.py:187-209 | the payload gets the server's time when it has no timestamp and is stored; the reply is `data_received` exactly when the store succeeded, else an error |
| TcpSession.ProcessStatus | tcp_server/consumers.py:211-232 | a status message without `status` changes nothing; otherwise the status is written verbatim and acknowledged, except `null` or a failing save, which change nothing and send an error |
| TcpSession.ProcessMessage | tcp_server/consumers.py:170-185 | a message without a type is data, `status` is status, any other type is an `error` reply with no change; a non-object is an error |
| TcpSession.ProcessFrame | tcp_server/consumers.py:80-102 | every frame gets exactly one reply, followed by a close only while authenticating; an undecodable frame is an error with no change; authenticated frames never change the session |
| TcpSession.ProcessFrames | tcp_server/consumers.py:49-55 | every frame of a chunk gets one or two events; an authenticated session never closes |
| TcpSession.Receive | tcp_server/consumers.py:33-55 | over the cap, only a close is requested and nothing is handled; below it, the handled frames and the kept buffer account for every byte, and an authenticated session never closes |
| TcpSession.Disconnect | tcp_server/consumers.py:57-65 | on disconnect an authenticated device goes offline with the current time unless the write raises; otherwise nothing changes |
| TcpSession.ReplyIsOneFrame | tcp_server/consumers.py:281-282 | every reply written to the wire is read back as exactly one frame |
| TcpSession.TwoFrames | tcp_server/consumers.py:49-55 | two frames each followed by a newline split into exactly those two frames |
| TcpSession.TwoFrameSteps | tcp_server/consumers.py:49-55 | two frames are handled one after the other, the second from the state the first leaves |
| TcpSession.RefusedThenAcceptedInOneChunk | tcp_server/consumers.py:49-55 | a close is only an event: a refused attempt and a valid one in the same chunk leave the session authenticated with a close requested |
| TcpSession.ChunkOfTwoFrames | tcp_server/consumers.py:33-55 | a chunk holding two whole frames on a fresh connection handles exactly those frames |
| TcpSession.MissingIdIsRefused | tcp_server/consumers.py:109-113 | a first message without `device_id` is refused with an error and a close, and changes nothing |
| TcpSession.StatusReplayIsIdempotent | tcp_server/consumers.py:211-232 | sending the same status message twice leaves the store as sending it once |
| TcpSession.StatusIsNotValidated | tcp_server/consumers.py:216-219 | any text outside the status choices, sent as the status, is stored as the device's status and acknowledged, unless the save raises |
| TcpSession.DataMessageGetsTheClock | tcp_server/consumers.py:193-197 | a data message without a timestamp is stored with the server's time |
| TcpSession.BufferIsCarried | tcp_server/consumers.py:49-55 | frame handling never reads or changes the buffer |
| TcpSession.FramesAppend | tcp_server/consumers.py:49-55 | handling `f1 + f2` is handling `f1`, then `f2` from the resulting state |
| TcpSession.ChunkingDoesNotMatter | tcp_server/consumers.py:33-55 | below the cap, how the bytes are cut into chunks changes neither the final state nor the events nor the stored readings |
| TcpSession.ReceiveHandles | tcp_server/consumers.py:33-55 | below the cap, receiving handles exactly the complete frames of buffer plus chunk and keeps the tail |
| MqttBridge.Configure | mqtt_client/mqtt.py:66-67 | a new bridge is disconnected, with the configured prefix and QoS or the defaults `novacloud/` and 1 |
| MqttBridge.OnConnect | mqtt_client/mqtt.py:89-107 | the bridge is connected exactly when `rc == 0`, and only then subscribes to the data and status wildcards |
| MqttBridge.OnDisconnect | mqtt_client/mqtt.py:109-115 | a disconnect clears the flag and keeps everything else |
| MqttBridge.ConnectedIffLastConnectSucceeded | mqtt_client/mqtt.py:89-115 | after any sequence of callbacks the bridge is connected exactly when the last one was a successful connect |
| MqttBridge.ParseTopic | mqtt_client/mqtt.py:123-145 | a topic is routed exactly when it has at least four segments, starts with the prefix, and its fourth segment is `data` or `status`; the device id is the third segment |
| MqttBridge.TrailingSegmentsIgnored | mqtt_client/mqtt.py:136-137 | extra trailing segments do not change the routing |
| MqttBridge.HandleData | mqtt_client/mqtt.py:158-202 | bad JSON, an unknown device or a failed store writes nothing; otherwise the device goes online with the current time and the new readings, all from its own sensors, are appended |
| MqttBridge.HandleStatus | mqtt_client/mqtt.py:204-237 | a known device's status is set verbatim to the payload's `status`; a `null` status, a save that raises, a missing `status`, an unknown device or bad JSON changes nothing |
| MqttBridge.OnMessage | mqtt_client/mqtt.py:117-148 | an unroutable topic or undecodable payload changes nothing; readings are created only by a data topic |
| MqttBridge.PayloadText | mqtt_client/mqtt.py:251-252 | a non-string payload is serialised as printable JSON text |
| MqttBridge.PublishTo | mqtt_client/mqtt.py:239-271 | nothing is published while disconnected; otherwise the message goes to the topic with the given or configured QoS, and succeeds exactly when the return code is success |
| MqttBridge.PublishCommand | mqtt_client/mqtt.py:239-271 | a command goes to the prefix plus `devices/<id>/command`, only while connected, and succeeds exactly when the broker accepts it |
| MqttBridge.PublishConfig | mqtt_client/mqtt.py:273-305 | a configuration goes to the prefix plus `devices/<id>/config`, only while connected, and succeeds exactly when the broker accepts it |
| MqttBridge.NoPublishBeforeConnect | mqtt_client/mqtt.py:239-243 | until a connect with `rc == 0`, no command or configuration is ever published |
| TcpClient.NewClient | tcp_server/tcp_client_example.py:38-55 | a new client is neither connected nor authenticated and has an empty buffer |
| TcpClient.Connect | tcp_server/tcp_client_example.py:57-68 | connecting sets the connected flag unless the socket refuses |
| TcpClient.SendMessage | tcp_server/tcp_client_example.py:118-136 | nothing is written while disconnected; otherwise the JSON text plus a newline is written, and a failed write marks the connection lost |
| TcpClient.Drain | tcp_server/tcp_client_example.py:158-174 | after a clean loop no complete frame is left in the buffer |
| TcpClient.DrainIsSplitThenFilter | tcp_server/tcp_client_example.py:158-174 | reading is splitting at newlines, then keeping the frames that parse, in order, and keeping the tail |
| TcpClient.BadTextStopsTheLoop | tcp_server/tcp_client_example.py:166-182 | a frame that is not UTF-8 ends the loop and marks the connection lost |
| TcpClient.UsableKeepsParsed | tcp_server/tcp_client_example.py:166-172 | when every frame parses, the messages are exactly the parsed frames, in order |
| TcpClient.ReceiveData | tcp_server/tcp_client_example.py:138-182 | a disconnected client reads nothing; an empty read marks it disconnected; after a read no complete frame stays buffered |
| TcpClient.WaitForResponse | tcp_server/tcp_client_example.py:184-197 | each poll is a `receive_data`; the wait ends with the first message of the first poll that yields any; a disconnected client or polls that all time out give no reply and no change; only the buffer and the connection flag can change, and the flag only drops |
| TcpClient.FirstReplyKeepsTheTail | tcp_server/tcp_client_example.py:158-197 | a read bringing the reply and the start of another message ends the wait with the reply and keeps that start buffered |
| TcpClient.CloseBeforeReplyDisconnects | tcp_server/tcp_client_example.py:150-153 | a server that closes before replying leaves the client disconnected with no reply |
| TcpClient.SendStatus | tcp_server/tcp_client_example.py:233-258 | a status message is written only while connected |
| TcpClient.SendSensorData | tcp_server/tcp_client_example.py:199-231 | readings are sent only when connected and authenticated |
| TcpClient.Authenticate | tcp_server/tcp_client_example.py:85-116 | the client authenticates exactly when it is connected, the write succeeds and the first message read within the timeout has type `auth_success`; the client keeps the buffer and connection state that waiting left |
| TcpClient.Disconnect | tcp_server/tcp_client_example.py:70-83 | with a socket, an `offline` status is sent first, then both flags are cleared |
| TcpClient.Written | tcp_server/tcp_client_example.py:126-129 | the bytes of several sends are each message's text followed by a newline |
| TcpClient.SentMessagesSplitOneForOne | tcp_server/consumers.py:49-55 | what the client writes splits on the server into exactly one frame per message, in order, with nothing left over |
| TcpClient.RepliesReadBack | tcp_server/tcp_client_example.py:158-174 | replies written by the server are read back by the client as exactly the messages sent, in order |
| TcpClient.HandshakeCompletes | tcp_server/consumers.py:122-135 | the client's authentication message for a registered device authenticates the server session, and, unless the server's `online` write fails, the reply read back makes the client authenticated |
| TcpClient.ServerAccepts | tcp_server/consumers.py:115-135 | the server authenticates a client holding a stored device's credentials and, unless the `online` write fails, replies `auth_success` |
| TcpClient.ClientMessagesAreDispatched | tcp_server/consumers.py:175-182 | the client's status messages reach the server's status handler, and its data messages reach the data handler already timestamped |
| Simulator.NewSim | mqtt_client/device_simulator.py:41-75 | a new simulator reports `online` and is not connected |
| Simulator.PublishStatus | mqtt_client/device_simulator.py:224-241 | nothing is published, and the status is not changed, while disconnected; otherwise one status message goes to the status topic |
| Simulator.PublishSensorData | mqtt_client/device_simulator.py:243-267 | readings are published on the data topic only while connected |
| Simulator.OnConnect | mqtt_client/device_simulator.py:103-120 | connected exactly when `rc == 0`; then it subscribes to its command and config topics and publishes `online` |
| Simulator.OnDisconnect | mqtt_client/device_simulator.py:122-128 | a disconnect clears the connected flag only |
| Simulator.HandleCommand | mqtt_client/device_simulator.py:149-199 | no `command` key publishes nothing; `ping` publishes exactly one `pong`; `reboot` ends with `reboot_complete`; any other command publishes nothing |
| Simulator.RebootSequence | mqtt_client/device_simulator.py:173-190 | when connected, `reboot` publishes `offline`, then `online`, then `reboot_complete`, in that order |
| Simulator.HandleConfig | mqtt_client/device_simulator.py:201-222 | a configuration that parses is acknowledged on the data topic with the configuration echoed; otherwise nothing is published |
| Simulator.OnMessage | mqtt_client/device_simulator.py:130-143 | only the exact command topic reaches the command handler and only the exact config topic the config handler; other topics are ignored |
| Simulator.Disconnect | mqtt_client/device_simulator.py:90-101 | a connected simulator publishes `offline` before it disconnects |
| Simulator.TopicSegments | mqtt_client/device_simulator.py:54-58 | a topic is `novacloud/devices/<id>/<kind>`: four segments when the id has no `/`, starting with the bridge's default prefix |
| Simulator.SimulatorTopicsRouteOnTheServer | mqtt_client/mqtt.py:123-145 | the simulator's data and status topics are routed by the bridge to the simulator's id; its command and config topics are not |
| Simulator.BridgeCommandsReachTheSimulator | mqtt_client/mqtt.py:247-248 | the bridge's command and config topics for a device are exactly the ones the simulator listens on |
| Simulator.SlashInIdMisroutes | mqtt_client/mqtt.py:136-137 | a device id containing `/status` makes its data topic route to another id as a status message |
| Simulator.PublishedStatusReachesTheBridge | mqtt_client/mqtt.py:204-237 | a status the simulator publishes sets the registered device's status on the server, unless the save raises |
| Simulator.PublishedReadingsReachTheBridge | mqtt_client/mqtt.py:140-141 | readings the simulator publishes reach the bridge's data handler for that device |
| Admin.Children | admin_panel/utils.py:23-25 | the direct subordinates are exactly the users whose parent is the given user |
| Admin.WalkIsSound | admin_panel/utils.py:21-31 | every id collected by the recursion is a direct or indirect subordinate |
| Admin.WalkIsComplete | admin_panel/utils.py:21-31 | when the recursion finishes, it has collected every direct or indirect subordinate |
| Admin.WalkTerminates | admin_panel/utils.py:21-34 | on an acyclic parent relation, the recursion finishes once its depth bound exceeds the user's rank |
| Admin.CycleNeverReturns | admin_panel/utils.py:21-34 | a user who is its own indirect subordinate makes the recursion never return |
| Admin.SubordinateIds | admin_panel/utils.py:7-37 | every id returned is a direct or indirect subordinate |
| Admin.SubordinatesExactly | admin_panel/utils.py:7-37 | on an acyclic relation, the result is exactly the set of subordinates, and the user is not among them |
| Admin.UserAndSubordinates | admin_panel/utils.py:39-56 | the visible users are exactly the user and its subordinates |
| Admin.WithIds | admin_panel/utils.py:56 | `filter(id__in=ids)` keeps exactly the users whose id is listed |
| Admin.ClientIp | admin_panel/utils.py:95-107 | an absent or empty `X-Forwarded-For` gives `REMOTE_ADDR`, possibly none; otherwise a single address without a comma |
| Admin.ForwardedClientWins | admin_panel/utils.py:100-104 | with `X-Forwarded-For` holding one client address, or `client, proxies`, the address is the client's, stripped |
| Admin.AuditIp | admin_panel/utils.py:74-75 | an explicit address wins; otherwise the request's client address, or none without a request |

## Left out

- Concurrency: the async consumer, the MQTT network thread and races between connections are not modelled. Each handler call is one sequential step, and `transaction.atomic` is all-or-nothing.
- Sockets, paho-mqtt, SMTP, `requests`, Django templates, `json.loads`, `uuid` and `timezone.now()` are parameters, not modelled. Their behaviour is outside the program.
- Floating point: readings and thresholds are exact decimals (`mantissa * 10^exponent`). There is no NaN and no rounding. A JSON integer of 2^1024 or more makes `float(v)` raise OverflowError inside the ingestion transaction (`tcp_server/consumers.py:256`, `mqtt_client/mqtt.py:186`); the model has no such bound and lets the store-failure parameter stand for that outcome as well.
- JsonText.FloatText: a float is written as mantissa, `e` and exponent, not as Python's shortest repr. Only the characters it uses matter for framing.
- JsonText.Dumps: its contract states only that the text is printable ASCII, which is what framing needs. The exact character-level text of `json.dumps` is not stated.
- Timing: the reboot's two `time.time()` readings are two clock parameters (`now`, `later`), and its `sleep` is left out, as are all other sleeps. The random readings of the simulator and of the client are parameters.
- Time-based waiting: `wait_for_response` polls until a timeout. The model takes the reads made before the timeout as a parameter, one per poll.
- The `auth_error` branch (`tcp_server/consumers.py:141-144`) is modelled only for a failing `online` write. In the model the credential lookup cannot raise: an id or key that is not a string is looked up by its text.
- The `data_process_error` handler (`tcp_server/consumers.py:206-209`) has nothing to catch in the model, because the store catches its own failures.
- The per-strategy exception handler (`strategy_engine/signals.py:49-50`) is not modelled. Neither condition evaluation nor action execution can raise out of a strategy in the model: every action failure is caught and logged per action.
- Rules.ExecuteActions: its contract states only one log per action. The contents of the logs are stated by Rules.RunActions, which it applies to the strategy's actions.
- TcpClient.Usable: its contract bounds only the count. The contents are stated by TcpClient.UsableKeepsParsed.
- Json.Replace: its contract states only the length. The lookups are stated by Json.ReplaceSpec.
- MqttBridge.OnMessage: its contract states only the dropping and the data-only creation of readings. The handlers it dispatches to carry the full behaviour.
- Admin.SubordinateIds: its contract states only soundness. Completeness and termination need an acyclic relation and are stated by Admin.SubordinatesExactly.
- Subordinate ids form a set, not `list(set)` in some order. The order of that list is unspecified in the source.
- Recursion depth: the recursion over `parent_user` carries a depth bound. Running out of it stands for the unbounded recursion, a `RecursionError`, that a cycle causes in the source.
- Persistence of the audit log (`admin_panel/utils.py:78-93`) is left out; only its choice of IP address is kept.
- Simulator.Disconnect: the flag is cleared later by the broker's `on_disconnect` callback, modelled by Simulator.OnDisconnect, and not by `disconnect` itself.
- Django field validation (types, lengths, required fields) is not modelled. Only the forms' own `clean` logic and choice lists are.
- Not modelled, being HTTP, admin or ORM plumbing:
  - views, URL configurations, admin registrations;
  - the other forms;
  - the profile and audit-log signal hooks;
  - the server's socket loop.
- Logging is not modelled.
- Actions.SendEmailNotification: a template that compiles but raises while rendering is treated like one that does not compile. The source compiles both templates before rendering either, so when the subject fails to render and the body fails to compile, it raises for the body while the model reports the subject.
- Actions.WebhookRequest: likewise, a payload template that raises while rendering is reported as one that does not compile.
- The `post_save` receiver runs inside the ingestion transaction, once per saved reading. When a later save of the same payload fails, the readings roll back, but the actions of strategies already run for the earlier readings (mails sent, commands published, web hooks called) are not undone. The model runs the rule engine only on the readings a payload commits, so it does not show these effects.
- The frame delimiter is fixed at a newline. The source reads it from `FRAME_DELIMITER` (`tcp_server/consumers.py:23`), with a newline as the default.
- The command and configuration topic templates are fixed at their defaults, `devices/{device_id}/command` and `devices/{device_id}/config`. The source reads them from `DEVICE_COMMAND_TOPIC` and `DEVICE_CONFIG_TOPIC` (`mqtt_client/mqtt.py:247`, `mqtt_client/mqtt.py:281`).
- Timestamps: one `now` stamps a payload's `last_seen` and every reading it creates. The source stamps each reading at its own save, through `auto_now_add` (`iot_devices/models.py:102`), so those times may differ slightly.
- Strategy order: the strategies of a device are visited in the order of the sequence given. The source visits them newest first, by `-created_at` (`strategy_engine/models.py:23`), and that order decides the order of their logs and actions. Giving the sequence newest first yields the source's order.
- Sensor order: a device's sensors are visited in the order of the sequence given. The source orders them by device, then by name (`iot_devices/models.py:75`). Reading numbers and rule evaluation follow the source's order when the sequence is given sorted that way.
