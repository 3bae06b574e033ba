/** The three kinds of rule action: the e-mail notification (recipient
    selection and the templates used), the actuator command (payload
    construction and the MQTT publish), and the web hook (payload and
    request choice). Template rendering, mail delivery, the HTTP client and
    the broker are parameters. */
module Actions {
  import opened Wrappers
  import opened Json
  import opened Devices
  import MqttBridge

  datatype ActionType = SendEmail | ControlActuator | Webhook | OtherAction(text: string)

  /** `get_action_type_display()`: the choice label, or the stored text for
      a value outside the choices. */
  function TypeDisplay(t: ActionType): string {
    match t
    case SendEmail => "发送邮件通知"
    case ControlActuator => "控制执行器"
    case Webhook => "WebHook调用"
    case OtherAction(text) => text
  }

  datatype User = User(pk: nat, email: string)

  /** The target actuator together with the `device_id` and name of the
      device it belongs to. */
  datatype Target = Target(actuator: Actuator, deviceId: string, deviceName: string)

  /** One configured action. Nullable text fields are `Option<string>`. */
  datatype Action = Action(
    pk: nat,
    kind: ActionType,
    recipientUser: Option<User>,
    recipientEmail: Option<string>,
    subjectTemplate: Option<string>,
    bodyTemplate: Option<string>,
    target: Option<Target>,
    command: Option<string>,
    webhookUrl: Option<string>,
    webhookMethod: Option<string>,
    payloadTemplate: Option<string>)

  /** Python truthiness of a nullable text field. */
  predicate Present(s: Option<string>) {
    s.Some? && s.value != ""
  }

  /** The recipient user's e-mail, or "" when there is no user. */
  function UserEmail(a: Action): string {
    if a.recipientUser.Some? then a.recipientUser.value.email else ""
  }

  /** Neither explicit recipient source is set. */
  predicate NoExplicitRecipient(a: Action) {
    !Present(a.recipientEmail) && UserEmail(a) == ""
  }

  /** The recipient list of `_send_email_notification`: the explicit address
      and the recipient user's address are both used when set; the project
      owner's address is used only when neither is. */
  function Recipients(a: Action, ownerEmail: string): (r: seq<string>)
    ensures forall e :: e in r <==>
              e != "" && (Some(e) == a.recipientEmail || e == UserEmail(a)
                          || (NoExplicitRecipient(a) && e == ownerEmail))
    ensures Present(a.recipientEmail) ==> r[0] == a.recipientEmail.value
    ensures |r| <= 2
    ensures r == [] <==> NoExplicitRecipient(a) && ownerEmail == ""
  {
    var explicit := (if Present(a.recipientEmail) then [a.recipientEmail.value] else [])
                    + (if UserEmail(a) != "" then [UserEmail(a)] else []);
    if explicit != [] then explicit
    else if ownerEmail != "" then [ownerEmail]
    else []
  }

  /** `value_float or value_string or value_boolean`: Python's `or` keeps
      the first truthy operand and otherwise yields the last, so a 0.0
      reading or an empty string falls through to the boolean slot. */
  function ContextValue(sd: SensorData): (r: PyVal)
    ensures r.PFloat? <==> sd.valueFloat.Some? && sd.valueFloat.value.Value() != 0.0
    ensures r.PFloat? ==> r == PFloat(sd.valueFloat.value)
    ensures r.PStr? ==> r.s != "" && sd.valueString == Some(r.s)
    ensures r.PBool? ==> sd.valueBool == Some(r.b)
    ensures r == PNone <==> sd.valueBool.None? && !r.PFloat? && !r.PStr?
  {
    if sd.valueFloat.Some? && sd.valueFloat.value.Value() != 0.0 then PFloat(sd.valueFloat.value)
    else if sd.valueString.Some? && sd.valueString.value != "" then PStr(sd.valueString.value)
    else if sd.valueBool.Some? then PBool(sd.valueBool.value)
    else PNone
  }

  /** The template context value agrees with the serializer's value
      whenever the first slot that is not `None` is also truthy. */
  lemma ContextAgreesWithSerializerWhenTruthy(sd: SensorData)
    requires sd.valueFloat.Some? ==> sd.valueFloat.value.Value() != 0.0
    requires sd.valueFloat.None? && sd.valueString.Some? ==> sd.valueString.value != ""
    ensures ContextValue(sd) == SerializedValue(sd)
  {
  }

  /** A reading of exactly 0.0 (the only kind the ingestion path writes:
      the float slot alone) is `0.0` to the API but `None` in a template. */
  lemma ZeroReadingFallsThrough(sd: SensorData)
    requires sd.valueFloat.Some? && sd.valueFloat.value.mantissa == 0
    requires sd.valueString.None? && sd.valueBool.None?
    ensures SerializedValue(sd) == PFloat(sd.valueFloat.value)
    ensures ContextValue(sd) == PNone
  {
    ZeroIffMantissaZero(sd.valueFloat.value);
  }

  /** What an action reads from its strategy and from the reading that
      triggered it. */
  datatype Trigger = Trigger(strategyPk: nat, strategyName: string, ownerEmail: string,
                             device: Device, reading: SensorData)

  datatype Mail = Mail(recipients: seq<string>, subject: string, body: string)

  datatype Request = HttpGet(url: string, params: Json) | HttpPost(url: string, body: Json)

  /** The foreign calls actions make. */
  datatype Env = Env(
    render: (string, Trigger) -> Option<string>,  // a Django template rendered against the trigger's
                                                  // context; `None` when it does not compile
    parse: string -> Option<Json>,         // `json.loads` of a string; `None` for JSONDecodeError
    mailSent: Mail -> bool,                // `send_mail` returned without raising
    mqtt: MqttBridge.Client,               // the bridge singleton
    publishRc: MqttBridge.Message -> int,  // the broker's return code for a publish
    responseOk: Request -> bool,           // `response.ok` for a request
    isoformat: int -> string)              // `timestamp.isoformat()`

  /** Why an action raised. */
  datatype ActionError =
    | NoRecipient                 // no e-mail recipient at all
    | TemplateError(template: string)  // a template raised TemplateSyntaxError
    | MailFailed(mail: Mail)      // `send_mail` raised
    | NoActuator                  // no target actuator
    | NoCommand                   // no (or an empty) actuator command
    | CommandNotObject(v: Json)   // the command parsed as JSON that is not an object
    | PublishFailed(deviceName: string)
    | NoWebhookUrl
    | PayloadNotJson(text: string)
    | RequestFailed(request: Request)

  /** What an action that returned normally did. */
  datatype Effect =
    | Emailed(mail: Mail)
    | Commanded(message: MqttBridge.Message)
    | Called(request: Request)
    | NoEffect

  /** The subject template, defaulting to one naming the strategy. */
  function SubjectTemplate(a: Action, strategyName: string): string {
    if Present(a.subjectTemplate) then a.subjectTemplate.value else "NovaCloud策略触发: " + strategyName
  }

  /** The body template, defaulting to a sentence naming device, sensor,
      value and strategy. */
  function BodyTemplate(a: Action): string {
    if Present(a.bodyTemplate) then a.bodyTemplate.value
    else "设备 {{ device.name }} 的传感器 {{ sensor.name }} 当前值为 {{ value }}，触发了策略 {{ strategy.name }}。"
  }

  /** `_send_email_notification`: the recipients are checked first, then
      the subject template and the body template are compiled, in that
      order, and only then is the mail sent. */
  function SendEmailNotification(a: Action, t: Trigger, env: Env): (r: Result<Effect, ActionError>)
    ensures Recipients(a, t.ownerEmail) == [] <==> r == Err(NoRecipient)
    ensures Recipients(a, t.ownerEmail) != [] && env.render(SubjectTemplate(a, t.strategyName), t).None? ==>
              r == Err(TemplateError(SubjectTemplate(a, t.strategyName)))
    ensures Recipients(a, t.ownerEmail) != [] && env.render(SubjectTemplate(a, t.strategyName), t).Some?
            && env.render(BodyTemplate(a), t).None? ==>
              r == Err(TemplateError(BodyTemplate(a)))
    ensures r.Ok? ==> r.value.Emailed? && env.mailSent(r.value.mail)
                      && r.value.mail.recipients == Recipients(a, t.ownerEmail)
                      && Some(r.value.mail.subject) == env.render(SubjectTemplate(a, t.strategyName), t)
                      && Some(r.value.mail.body) == env.render(BodyTemplate(a), t)
    ensures r.Err? && r.error.MailFailed? ==> !env.mailSent(r.error.mail)
    ensures Recipients(a, t.ownerEmail) != [] && env.render(SubjectTemplate(a, t.strategyName), t).Some?
            && env.render(BodyTemplate(a), t).Some? ==>
              var mail := Mail(Recipients(a, t.ownerEmail), env.render(SubjectTemplate(a, t.strategyName), t).value,
                               env.render(BodyTemplate(a), t).value);
              (r.Ok? <==> env.mailSent(mail)) && (r.Ok? ==> r.value == Emailed(mail))
              && (r.Err? ==> r.error == MailFailed(mail))
  {
    var rs := Recipients(a, t.ownerEmail);
    if rs == [] then Err(NoRecipient)
    else
      match env.render(SubjectTemplate(a, t.strategyName), t)
      case None => Err(TemplateError(SubjectTemplate(a, t.strategyName)))
      case Some(subject) =>
        match env.render(BodyTemplate(a), t)
        case None => Err(TemplateError(BodyTemplate(a)))
        case Some(body) =>
          var mail := Mail(rs, subject, body);
          if env.mailSent(mail) then Ok(Emailed(mail)) else Err(MailFailed(mail))
  }

  /** The command object of `_control_actuator`: the command parsed as JSON,
      or `{command_key: command}` when it is not JSON, then with `command`
      set to `control_actuator`. A command that parses to anything but an
      object raises on the item assignment. */
  function CommandData(command: string, commandKey: string, parse: string -> Option<Json>): (r: Result<seq<Field>, ActionError>)
    ensures r.Ok? ==> Get(r.value, "command") == Some(JStr("control_actuator"))
    ensures parse(command).None? && commandKey != "command" ==>
              r.Ok? && Get(r.value, commandKey) == Some(JStr(command))
    ensures r.Err? <==> parse(command).Some? && !parse(command).value.JObj?
    ensures parse(command).Some? && parse(command).value.JObj? ==>
              forall k :: k != "command" ==> Get(r.value, k) == Get(parse(command).value.fields, k)
  {
    match parse(command)
    case None => Ok(Put([Field(commandKey, JStr(command))], "command", JStr("control_actuator")))
    case Some(v) =>
      if v.JObj? then Ok(Put(v.fields, "command", JStr("control_actuator")))
      else Err(CommandNotObject(v))
  }

  /** A plain command sent to an actuator whose command key is `command`
      is overwritten by the marker: the device never sees it. */
  lemma CommandKeyCollision(command: string, parse: string -> Option<Json>)
    requires parse(command).None?
    ensures CommandData(command, "command", parse) == Ok([Field("command", JStr("control_actuator"))])
  {
    var one := [Field("command", JStr(command))];
    assert one[0].key == "command";
    assert Replace(one, "command", JStr("control_actuator")) == [Field("command", JStr("control_actuator"))] by {
      assert one[..0] == [];
    }
  }

  /** A command such as "1", "true" or "[1]" that is valid JSON but not an
      object makes the action fail, whatever the command key. */
  lemma NonObjectCommandFails(command: string, parse: string -> Option<Json>, commandKey: string, v: Json)
    requires parse(command) == Some(v) && !v.JObj?
    ensures CommandData(command, commandKey, parse) == Err(CommandNotObject(v))
  {
  }

  /** `_control_actuator`. */
  function ControlActuatorAction(a: Action, env: Env): (r: Result<Effect, ActionError>)
    ensures a.target.None? ==> r == Err(NoActuator)
    ensures a.target.Some? && !Present(a.command) ==> r == Err(NoCommand)
    ensures r.Ok? ==>
              a.target.Some? && Present(a.command)
              && CommandData(a.command.value, a.target.value.actuator.commandKey, env.parse).Ok?
              && r.value.Commanded?
              && r.value.message.topic == MqttBridge.CommandTopic(env.mqtt.prefix, a.target.value.deviceId)
              && r.value.message.payload
                 == MqttBridge.PayloadText(MqttBridge.JsonPayload(JObj(
                      CommandData(a.command.value, a.target.value.actuator.commandKey, env.parse).value)))
              && env.mqtt.connected && env.publishRc(r.value.message) == MqttBridge.ErrSuccess
    ensures a.target.Some? && Present(a.command) && !env.mqtt.connected
            && CommandData(a.command.value, a.target.value.actuator.commandKey, env.parse).Ok? ==>
              r == Err(PublishFailed(a.target.value.deviceName))
    ensures a.target.Some? && Present(a.command)
            && CommandData(a.command.value, a.target.value.actuator.commandKey, env.parse).Err? ==>
              r == Err(CommandData(a.command.value, a.target.value.actuator.commandKey, env.parse).error)
    ensures a.target.Some? && Present(a.command) && env.mqtt.connected
            && CommandData(a.command.value, a.target.value.actuator.commandKey, env.parse).Ok? ==>
              var message := MqttBridge.Message(
                MqttBridge.CommandTopic(env.mqtt.prefix, a.target.value.deviceId),
                MqttBridge.PayloadText(MqttBridge.JsonPayload(JObj(
                  CommandData(a.command.value, a.target.value.actuator.commandKey, env.parse).value))),
                env.mqtt.qos);
              (r.Ok? <==> env.publishRc(message) == MqttBridge.ErrSuccess)
              && (r.Ok? ==> r.value == Commanded(message))
              && (r.Err? ==> r.error == PublishFailed(a.target.value.deviceName))
  {
    match a.target
    case None => Err(NoActuator)
    case Some(target) =>
      if !Present(a.command) then Err(NoCommand)
      else
        match CommandData(a.command.value, target.actuator.commandKey, env.parse)
        case Err(e) => Err(e)
        case Ok(fields) =>
          var p := MqttBridge.PublishCommand(env.mqtt, target.deviceId, MqttBridge.JsonPayload(JObj(fields)),
                                             None, env.publishRc);
          if p.ok then Ok(Commanded(p.sent.value)) else Err(PublishFailed(target.deviceName))
  }

  /** A context value as it appears inside a JSON payload. */
  function ValueJson(v: PyVal): Json {
    match v
    case PNone => JNull
    case PFloat(d) => JFloat(d.mantissa, d.exponent)
    case PStr(s) => JStr(s)
    case PBool(b) => JBool(b)
  }

  /** The web hook's default payload. */
  function DefaultPayload(t: Trigger, env: Env): (r: Json)
    ensures r.JObj? && |r.fields| == 5 && r.fields[0] == Field("event", JStr("strategy_triggered"))
    ensures r.fields[3].key == "sensor" && r.fields[3].val.JObj?
            && |r.fields[3].val.fields| == 3 && r.fields[3].val.fields[2] == Field("value", ValueJson(ContextValue(t.reading)))
  {
    var sensor := t.reading.sensor;
    JObj([
      Field("event", JStr("strategy_triggered")),
      Field("strategy", JObj([Field("id", JInt(t.strategyPk)), Field("name", JStr(t.strategyName))])),
      Field("device", JObj([Field("id", JStr(t.device.deviceId)), Field("name", JStr(t.device.name))])),
      Field("sensor", JObj([Field("id", JInt(sensor.pk)), Field("name", JStr(sensor.name)),
                            Field("value", ValueJson(ContextValue(t.reading)))])),
      Field("timestamp", JStr(env.isoformat(t.reading.timestamp)))])
  }

  /** The request `_call_webhook` makes: a missing URL, a payload template
      that does not compile or a rendered template that is not JSON raises;
      the method defaults to POST and only exactly `GET` sends the payload
      as query parameters. */
  function WebhookRequest(a: Action, t: Trigger, env: Env): (r: Result<Request, ActionError>)
    ensures !Present(a.webhookUrl) ==> r == Err(NoWebhookUrl)
    ensures r.Ok? ==> Present(a.webhookUrl) && r.value.url == a.webhookUrl.value
    ensures r.Ok? ==> (r.value.HttpGet? <==> a.webhookMethod == Some("GET"))
    ensures Present(a.webhookUrl) && !Present(a.payloadTemplate) ==>
              r.Ok? && (if r.value.HttpGet? then r.value.params else r.value.body) == DefaultPayload(t, env)
    ensures Present(a.webhookUrl) && Present(a.payloadTemplate) && env.render(a.payloadTemplate.value, t).None? ==>
              r == Err(TemplateError(a.payloadTemplate.value))
    ensures Present(a.webhookUrl) && Present(a.payloadTemplate) && env.render(a.payloadTemplate.value, t).Some? ==>
              var text := env.render(a.payloadTemplate.value, t).value;
              (r.Err? <==> env.parse(text).None?)
              && (r.Err? ==> r.error == PayloadNotJson(text))
              && (r.Ok? ==> (if r.value.HttpGet? then r.value.params else r.value.body) == env.parse(text).value)
  {
    if !Present(a.webhookUrl) then Err(NoWebhookUrl)
    else
      var payload: Result<Json, ActionError> :=
        if Present(a.payloadTemplate) then
          match env.render(a.payloadTemplate.value, t)
          case None => Err(TemplateError(a.payloadTemplate.value))
          case Some(text) =>
            match env.parse(text)
            case None => Err(PayloadNotJson(text))
            case Some(p) => Ok(p)
        else Ok(DefaultPayload(t, env));
      match payload
      case Err(e) => Err(e)
      case Ok(p) =>
        var verb := if Present(a.webhookMethod) then a.webhookMethod.value else "POST";
        if verb == "GET" then Ok(HttpGet(a.webhookUrl.value, p)) else Ok(HttpPost(a.webhookUrl.value, p))
  }

  /** `_call_webhook`: the request is made and a response that is not `ok`
      raises. */
  function CallWebhook(a: Action, t: Trigger, env: Env): (r: Result<Effect, ActionError>)
    ensures WebhookRequest(a, t, env).Err? ==> r == Err(WebhookRequest(a, t, env).error)
    ensures r.Ok? <==> WebhookRequest(a, t, env).Ok? && env.responseOk(WebhookRequest(a, t, env).value)
    ensures r.Ok? ==> r.value == Called(WebhookRequest(a, t, env).value)
  {
    match WebhookRequest(a, t, env)
    case Err(e) => Err(e)
    case Ok(req) => if env.responseOk(req) then Ok(Called(req)) else Err(RequestFailed(req))
  }

  /** `Action.execute`: dispatch on the action type; an unknown type does
      nothing and returns normally. */
  function Execute(a: Action, t: Trigger, env: Env): (r: Result<Effect, ActionError>)
    ensures a.kind.OtherAction? ==> r == Ok(NoEffect)
    ensures a.kind == SendEmail ==> r == SendEmailNotification(a, t, env)
    ensures a.kind == ControlActuator ==> r == ControlActuatorAction(a, env)
    ensures a.kind == Webhook ==> r == CallWebhook(a, t, env)
    ensures r.Ok? && r.value.Emailed? ==> a.kind == SendEmail
    ensures r.Ok? && r.value.Commanded? ==> a.kind == ControlActuator
    ensures r.Ok? && r.value.Called? ==> a.kind == Webhook
    ensures r.Ok? && r.value == NoEffect ==> a.kind.OtherAction?
  {
    match a.kind
    case SendEmail => SendEmailNotification(a, t, env)
    case ControlActuator => ControlActuatorAction(a, env)
    case Webhook => CallWebhook(a, t, env)
    case OtherAction(_) => Ok(NoEffect)
  }
}
