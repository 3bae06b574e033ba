/** The configuration validators of the rule engine: which threshold field
    each condition type needs, which fields each action type needs, the
    choice lists offered for a condition's sensor and an action's actuator,
    and the per-project uniqueness of strategy names. Only the forms'
    `clean` logic and choice restrictions are modelled; Django's own field
    validation is not. */
module Forms {
  import opened Wrappers
  import opened Json
  import opened Devices
  import Rules
  import Actions

  /** One `add_error(field, message)`. */
  datatype FieldError = FieldError(field: string, message: string)

  /** `ConditionForm.clean`: the threshold slot named by the type must be
      filled: a float or boolean threshold must not be `None` (so 0.0 and
      `False` pass), a string threshold must be non-empty. Other types are
      not checked here. */
  function ConditionErrors(c: Rules.Condition): (errs: seq<FieldError>)
    ensures |errs| <= 1
    ensures c.valueType == Rules.FloatType ==>
              (errs == [] <==> c.floatThreshold.Some?)
    ensures c.valueType == Rules.StringType ==>
              (errs == [] <==> Actions.Present(c.stringThreshold))
    ensures c.valueType == Rules.BooleanType ==>
              (errs == [] <==> c.boolThreshold.Some?)
    ensures c.valueType.OtherType? ==> errs == []
  {
    match c.valueType
    case FloatType =>
      if c.floatThreshold.None? then [FieldError("threshold_value_float", "使用数值类型时必须提供数值阈值")] else []
    case StringType =>
      if !Actions.Present(c.stringThreshold) then [FieldError("threshold_value_string", "使用文本类型时必须提供文本阈值")] else []
    case BooleanType =>
      if c.boolThreshold.None? then [FieldError("threshold_value_boolean", "使用布尔类型时必须提供布尔阈值")] else []
    case OtherType(_) => []
  }

  /** A condition the form accepts with one of the three known types has a
      threshold, so `evaluate` never rejects it for a missing threshold. */
  lemma AcceptedConditionHasThreshold(c: Rules.Condition)
    requires ConditionErrors(c) == [] && !c.valueType.OtherType?
    ensures Rules.ThresholdValue(c) != PNone
  {
  }

  /** `ActionForm.clean`: the fields each action type needs, one error per
      missing field, in form order. */
  function ActionErrors(a: Actions.Action): (errs: seq<FieldError>)
    ensures a.kind == Actions.SendEmail ==>
              (errs == [] <==> Actions.Present(a.subjectTemplate) && Actions.Present(a.bodyTemplate))
              && |errs| == (if Actions.Present(a.subjectTemplate) then 0 else 1)
                           + (if Actions.Present(a.bodyTemplate) then 0 else 1)
    ensures a.kind == Actions.ControlActuator ==>
              (errs == [] <==> a.target.Some? && Actions.Present(a.command))
              && |errs| == (if a.target.Some? then 0 else 1) + (if Actions.Present(a.command) then 0 else 1)
    ensures a.kind == Actions.Webhook ==> (errs == [] <==> Actions.Present(a.webhookUrl))
    ensures a.kind.OtherAction? ==> errs == []
  {
    match a.kind
    case SendEmail =>
      (if Actions.Present(a.subjectTemplate) then [] else [FieldError("notification_subject_template", "邮件主题是必填的")])
      + (if Actions.Present(a.bodyTemplate) then [] else [FieldError("notification_body_template", "邮件内容是必填的")])
    case ControlActuator =>
      (if a.target.Some? then [] else [FieldError("target_actuator", "目标执行器是必填的")])
      + (if Actions.Present(a.command) then [] else [FieldError("actuator_command", "执行器命令是必填的")])
    case Webhook =>
      if Actions.Present(a.webhookUrl) then [] else [FieldError("webhook_url", "WebHook URL是必填的")]
    case OtherAction(_) => []
  }

  /** An action the form accepts never fails for a missing field: the
      actuator command always has its target and command, the web hook
      its URL, and an e-mail uses its own templates rather than the
      defaults. */
  lemma AcceptedActionHasItsFields(a: Actions.Action, t: Actions.Trigger, env: Actions.Env)
    requires ActionErrors(a) == []
    ensures Actions.Execute(a, t, env) != Err(Actions.NoActuator)
    ensures Actions.Execute(a, t, env) != Err(Actions.NoCommand)
    ensures Actions.Execute(a, t, env) != Err(Actions.NoWebhookUrl)
    ensures a.kind == Actions.SendEmail ==>
              Actions.SubjectTemplate(a, t.strategyName) == a.subjectTemplate.value
              && Actions.BodyTemplate(a) == a.bodyTemplate.value
  {
  }

  /** The sensors offered for a condition: those of the strategy's trigger
      device, in store order; none when the strategy does not exist. */
  function SensorChoices(sensors: seq<Sensor>, strategy: Option<Rules.Strategy>): (r: seq<Sensor>)
    ensures forall s :: s in r <==> s in sensors && strategy.Some? && s.device == strategy.value.trigger
    ensures |r| <= |sensors|
  {
    if |sensors| == 0 || strategy.None? then []
    else
      var rest := SensorChoices(sensors[1..], strategy);
      assert forall s :: s in sensors <==> s == sensors[0] || s in sensors[1..] by {
        assert sensors == [sensors[0]] + sensors[1..];
      }
      if sensors[0].device == strategy.value.trigger then [sensors[0]] + rest else rest
  }

  /** A reading of a sensor offered for a condition passes the strategy's
      trigger-device check. */
  lemma ChosenSensorPassesDeviceCheck(sensors: seq<Sensor>, s: Rules.Strategy, sensor: Sensor, sd: SensorData)
    requires sensor in SensorChoices(sensors, Some(s))
    requires sd.sensor == sensor
    ensures sd.sensor.device == s.trigger
  {
  }

  /** The device is in the project. */
  predicate InProject(devices: seq<Device>, device: nat, project: nat) {
    exists k :: 0 <= k < |devices| && devices[k].pk == device && devices[k].project == project
  }

  /** The actuators offered for an action: those on devices of the
      strategy's project; none when the strategy does not exist. */
  function ActuatorChoices(actuators: seq<Actuator>, devices: seq<Device>, project: Option<nat>): (r: seq<Actuator>)
    ensures forall a :: a in r <==> a in actuators && project.Some? && InProject(devices, a.device, project.value)
    ensures |r| <= |actuators|
  {
    if |actuators| == 0 || project.None? then []
    else
      var rest := ActuatorChoices(actuators[1..], devices, project);
      assert forall a :: a in actuators <==> a == actuators[0] || a in actuators[1..] by {
        assert actuators == [actuators[0]] + actuators[1..];
      }
      if InProject(devices, actuators[0].device, project.value) then [actuators[0]] + rest else rest
  }

  /** Another strategy (not the one being edited) in the project already
      has this name. */
  predicate NameTaken(strategies: seq<Rules.Strategy>, project: nat, name: string, editing: Option<nat>) {
    exists k :: 0 <= k < |strategies| && strategies[k].project == project && strategies[k].name == name
                && Some(strategies[k].pk) != editing
  }

  /** `StrategyForm.clean_name`: an empty name, or a form without a
      project, is passed through; otherwise a name used by another strategy
      of the same project is rejected. */
  function CleanName(name: string, project: Option<nat>, editing: Option<nat>,
                     strategies: seq<Rules.Strategy>): (r: Result<string, FieldError>)
    ensures r.Ok? ==> r.value == name
    ensures r.Err? <==> name != "" && project.Some? && NameTaken(strategies, project.value, name, editing)
  {
    if name != "" && project.Some? && NameTaken(strategies, project.value, name, editing) then
      Err(FieldError("name", "同一项目下已存在同名策略"))
    else Ok(name)
  }

  /** No two strategies of a project share a non-empty name, and primary
      keys are distinct. */
  predicate UniqueNames(strategies: seq<Rules.Strategy>) {
    (forall i, j :: 0 <= i < j < |strategies| ==> strategies[i].pk != strategies[j].pk)
    && (forall i, j :: (0 <= i < j < |strategies| && strategies[i].project == strategies[j].project
                        && strategies[i].name != "") ==> strategies[i].name != strategies[j].name)
  }

  /** Creating a strategy whose name `clean_name` accepted keeps the names
      of every project unique. */
  lemma CreatePreservesUniqueNames(strategies: seq<Rules.Strategy>, s: Rules.Strategy)
    requires UniqueNames(strategies)
    requires forall k :: 0 <= k < |strategies| ==> strategies[k].pk != s.pk
    requires s.name != ""
    requires CleanName(s.name, Some(s.project), None, strategies).Ok?
    ensures UniqueNames(strategies + [s])
  {
    var all := strategies + [s];
    forall i, j | 0 <= i < j < |all| && all[i].project == all[j].project && all[i].name != ""
      ensures all[i].name != all[j].name
    {
      if j == |strategies| {
        var other := strategies[i];
        assert all[i] == other;
        assert !(other.project == s.project && other.name == s.name && Some(other.pk) != None);
      } else {
        assert all[i] == strategies[i] && all[j] == strategies[j];
      }
    }
  }

  /** Renaming the strategy at position `k` to a name `clean_name` accepts
      for it keeps the names unique; in particular a strategy may keep its
      own name. */
  lemma EditPreservesUniqueNames(strategies: seq<Rules.Strategy>, k: nat, name: string)
    requires UniqueNames(strategies) && k < |strategies|
    requires name != ""
    requires CleanName(name, Some(strategies[k].project), Some(strategies[k].pk), strategies).Ok?
    ensures UniqueNames(strategies[k := strategies[k].(name := name)])
  {
    var all := strategies[k := strategies[k].(name := name)];
    var p, pk := strategies[k].project, strategies[k].pk;
    assert !NameTaken(strategies, p, name, Some(pk));
    forall i, j | 0 <= i < j < |all| && all[i].project == all[j].project && all[i].name != ""
      ensures all[i].name != all[j].name
    {
      if i == k {
        var other := strategies[j];
        assert other.pk != pk;
        assert !(other.project == p && other.name == name && Some(other.pk) != Some(pk));
      } else if j == k {
        var other := strategies[i];
        assert other.pk != pk;
        assert !(other.project == p && other.name == name && Some(other.pk) != Some(pk));
      }
    }
  }

  /** Keeping one's own name always passes `clean_name` when the names are
      unique. */
  lemma OwnNameAccepted(strategies: seq<Rules.Strategy>, k: nat)
    requires UniqueNames(strategies) && k < |strategies|
    ensures CleanName(strategies[k].name, Some(strategies[k].project), Some(strategies[k].pk), strategies).Ok?
  {
    var s := strategies[k];
    if s.name != "" {
      forall m | 0 <= m < |strategies| && m != k
        ensures !(strategies[m].project == s.project && strategies[m].name == s.name)
      {
      }
      forall m | 0 <= m < |strategies| && m == k
        ensures Some(strategies[m].pk) == Some(s.pk)
      {
      }
    }
  }
}
