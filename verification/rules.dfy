/** The rule engine: typed threshold conditions, the ordered condition chain
    of a strategy with Python's `and`/`or` on a running value that starts as
    `None`, and the per-action execution log. */
module Rules {
  import opened Wrappers
  import opened Json
  import opened Devices
  import Sorting
  import Actions

  /** `Condition.OPERATOR_CHOICES`, plus whatever else the column holds. */
  datatype CmpOp = Gt | Lt | Ge | Le | Eq | Ne | OtherOp(text: string)

  /** `Condition.VALUE_TYPE_CHOICES`, plus whatever else the column holds. */
  datatype ValueType = FloatType | StringType | BooleanType | OtherType(text: string)

  /** `logical_operator_to_next`: `AND`, `OR`, or null (any other stored
      text behaves like null). */
  datatype Link = And | Or | Unlinked

  datatype Condition = Condition(
    pk: nat,
    sensor: nat,                       // the sensor's primary key
    op: CmpOp,
    valueType: ValueType,
    floatThreshold: Option<Decimal>,
    stringThreshold: Option<string>,
    boolThreshold: Option<bool>,
    next: Link)

  /** `get_threshold_value`: the threshold slot named by the value type. */
  function ThresholdValue(c: Condition): (r: PyVal)
    ensures c.valueType.OtherType? ==> r == PNone
    ensures c.valueType == FloatType ==> (r == PNone <==> c.floatThreshold.None?)
    ensures c.valueType == StringType ==> (r == PNone <==> c.stringThreshold.None?)
    ensures c.valueType == BooleanType ==> (r == PNone <==> c.boolThreshold.None?)
  {
    match c.valueType
    case FloatType => if c.floatThreshold.Some? then PFloat(c.floatThreshold.value) else PNone
    case StringType => if c.stringThreshold.Some? then PStr(c.stringThreshold.value) else PNone
    case BooleanType => if c.boolThreshold.Some? then PBool(c.boolThreshold.value) else PNone
    case OtherType(_) => PNone
  }

  /** The outcome of a three-way comparison. */
  datatype Ordering = Less | Same | Greater

  /** Whether the comparison operator accepts an ordering of actual versus
      threshold. */
  function Holds(op: CmpOp, o: Ordering): bool {
    match op
    case Gt => o == Greater
    case Lt => o == Less
    case Ge => o != Less
    case Le => o != Greater
    case Eq => o == Same
    case Ne => o != Same
    case OtherOp(_) => false
  }

  function CompareReals(a: real, b: real): Ordering {
    if a < b then Less else if a == b then Same else Greater
  }

  /** Python's `<` on strings: lexicographic by code point. */
  predicate StrLess(a: string, b: string)
    decreases |a|
  {
    if |a| == 0 then |b| > 0
    else |b| > 0 && (a[0] < b[0] || (a[0] == b[0] && StrLess(a[1..], b[1..])))
  }

  /** Python's string order is a strict total order. */
  lemma {:induction false} StrLessTotal(a: string, b: string)
    ensures StrLess(a, b) ==> !StrLess(b, a) && a != b
    ensures a != b ==> StrLess(a, b) || StrLess(b, a)
    decreases |a|
  {
    if |a| > 0 && |b| > 0 {
      StrLessTotal(a[1..], b[1..]);
      if a[0] == b[0] && a[1..] == b[1..] {
        assert a == [a[0]] + a[1..] && b == [b[0]] + b[1..];
      }
    }
  }

  function CompareStrings(a: string, b: string): Ordering {
    if a == b then Same else if StrLess(a, b) then Less else Greater
  }

  /** `True > False` in Python: booleans order as 0 and 1. */
  function BoolNumber(b: bool): real {
    if b then 1.0 else 0.0
  }

  /** The operator applied directly to two numbers. */
  predicate NumberHolds(op: CmpOp, a: real, b: real) {
    match op
    case Gt => a > b
    case Lt => a < b
    case Ge => a >= b
    case Le => a <= b
    case Eq => a == b
    case Ne => a != b
    case OtherOp(_) => false
  }

  /** The operator applied directly to two strings. */
  predicate StringHolds(op: CmpOp, a: string, b: string) {
    match op
    case Gt => StrLess(b, a)
    case Lt => StrLess(a, b)
    case Ge => !StrLess(a, b)
    case Le => !StrLess(b, a)
    case Eq => a == b
    case Ne => a != b
    case OtherOp(_) => false
  }

  /** `Condition.evaluate`: the reading's slot named by the value type is
      compared with the threshold. An unknown type, a missing value, a
      missing threshold or an unknown operator gives `False`. */
  function Evaluate(c: Condition, sd: SensorData): (r: bool)
    ensures r ==> !c.valueType.OtherType? && !c.op.OtherOp? && ThresholdValue(c) != PNone
    ensures c.valueType == FloatType ==>
              (r <==> sd.valueFloat.Some? && c.floatThreshold.Some?
                      && NumberHolds(c.op, sd.valueFloat.value.Value(), c.floatThreshold.value.Value()))
    ensures c.valueType == StringType ==>
              (r <==> sd.valueString.Some? && c.stringThreshold.Some?
                      && StringHolds(c.op, sd.valueString.value, c.stringThreshold.value))
    ensures c.valueType == BooleanType ==>
              (r <==> sd.valueBool.Some? && c.boolThreshold.Some?
                      && NumberHolds(c.op, BoolNumber(sd.valueBool.value), BoolNumber(c.boolThreshold.value)))
  {
    match c.valueType
    case FloatType =>
      sd.valueFloat.Some? && c.floatThreshold.Some?
      && Holds(c.op, CompareReals(sd.valueFloat.value.Value(), c.floatThreshold.value.Value()))
    case StringType =>
      if sd.valueString.Some? && c.stringThreshold.Some? then
        StrLessTotal(sd.valueString.value, c.stringThreshold.value);
        Holds(c.op, CompareStrings(sd.valueString.value, c.stringThreshold.value))
      else false
    case BooleanType =>
      sd.valueBool.Some? && c.boolThreshold.Some?
      && Holds(c.op, CompareReals(BoolNumber(sd.valueBool.value), BoolNumber(c.boolThreshold.value)))
    case OtherType(_) => false
  }

  /** The combination of two known results. */
  function Apply(link: Link, a: bool, b: bool): bool {
    match link
    case And => a && b
    case Or => a || b
    case Unlinked => a
  }

  /** Python truthiness of the running value. */
  predicate IsTruthy(acc: Option<bool>) {
    acc == Some(true)
  }

  /** One step of the chain: `result and current` / `result or current`
      with Python's operators (each yields an operand), or no change when
      the previous condition has no link. */
  function Combine(link: Link, acc: Option<bool>, cur: bool): (r: Option<bool>)
    ensures acc.Some? ==> r == Some(Apply(link, acc.value, cur))
    ensures acc.None? && link == And ==> r == None
    ensures acc.None? && link == Or ==> r == Some(cur)
    ensures link == Unlinked ==> r == acc
  {
    match link
    case And => if IsTruthy(acc) then Some(cur) else acc
    case Or => if IsTruthy(acc) then acc else Some(cur)
    case Unlinked => acc
  }

  /** The loop of `evaluate_conditions` from position `i` on, with running
      value `acc`: a condition about another sensor is skipped, position 0
      seeds the value, and every later position combines with the link of
      the condition just before it, skipped or not. */
  function Walk(conds: seq<Condition>, sd: SensorData, i: nat, acc: Option<bool>): Option<bool>
    requires i <= |conds|
    decreases |conds| - i
  {
    if i == |conds| then acc
    else if conds[i].sensor != sd.sensor.pk then Walk(conds, sd, i + 1, acc)
    else
      var cur := Evaluate(conds[i], sd);
      Walk(conds, sd, i + 1, if i == 0 then Some(cur) else Combine(conds[i - 1].next, acc, cur))
  }

  /** A strategy with its conditions and actions as stored. */
  datatype Strategy = Strategy(
    pk: nat,
    name: string,
    project: nat,
    ownerEmail: string,           // the e-mail of the project's owner
    enabled: bool,
    trigger: nat,                 // the trigger device's primary key
    conditions: seq<Condition>,
    actions: seq<Actions.Action>)

  function ConditionKey(c: Condition): int {
    c.pk
  }

  /** The conditions in ascending id order. */
  function Ordered(s: Strategy): (r: seq<Condition>)
    ensures Sorting.SortedBy(r, ConditionKey)
    ensures multiset(r) == multiset(s.conditions)
  {
    Sorting.SortBy(s.conditions, ConditionKey)
  }

  /** Some condition about the reading's sensor holds for it. */
  predicate SomeConditionHolds(conds: seq<Condition>, sd: SensorData) {
    exists k :: 0 <= k < |conds| && conds[k].sensor == sd.sensor.pk && Evaluate(conds[k], sd)
  }

  /** The chain only becomes truthy through a condition that holds. */
  lemma {:induction false} WalkTrueNeedsWitness(conds: seq<Condition>, sd: SensorData, i: nat, acc: Option<bool>)
    requires i <= |conds|
    requires acc == Some(true) ==> SomeConditionHolds(conds, sd)
    ensures Walk(conds, sd, i, acc) == Some(true) ==> SomeConditionHolds(conds, sd)
    decreases |conds| - i
  {
    if i < |conds| {
      if conds[i].sensor != sd.sensor.pk {
        WalkTrueNeedsWitness(conds, sd, i + 1, acc);
      } else {
        var cur := Evaluate(conds[i], sd);
        var next := if i == 0 then Some(cur) else Combine(conds[i - 1].next, acc, cur);
        assert next == Some(true) ==> acc == Some(true) || cur;
        WalkTrueNeedsWitness(conds, sd, i + 1, next);
      }
    }
  }

  /** `Strategy.evaluate_conditions`: `False` for a disabled strategy, a
      reading from another device, or a strategy without conditions;
      otherwise the chain over the conditions in id order, with a final
      `None` read as `False`. */
  function EvaluateConditions(s: Strategy, sd: SensorData): (r: bool)
    ensures !s.enabled ==> !r
    ensures sd.sensor.device != s.trigger ==> !r
    ensures s.conditions == [] ==> !r
    ensures r ==> SomeConditionHolds(Ordered(s), sd)
  {
    if !s.enabled then false
    else if sd.sensor.device != s.trigger then false
    else
      var conds := Ordered(s);
      if |conds| == 0 then false
      else
        WalkTrueNeedsWitness(conds, sd, 0, None);
        Walk(conds, sd, 0, None).GetOr(false)
  }

  /** The reference reading of a chain whose every condition is about the
      reading's sensor: a left fold that combines each condition with the
      result so far through the link of the condition before it. */
  function Fold(conds: seq<Condition>, sd: SensorData): bool
    requires |conds| >= 1
  {
    if |conds| == 1 then Evaluate(conds[0], sd)
    else Apply(conds[|conds| - 2].next, Fold(conds[..|conds| - 1], sd), Evaluate(conds[|conds| - 1], sd))
  }

  /** Every condition is about the reading's sensor. */
  predicate AllAbout(conds: seq<Condition>, sd: SensorData) {
    forall k :: 0 <= k < |conds| ==> conds[k].sensor == sd.sensor.pk
  }

  lemma {:induction false} WalkFromPrefix(conds: seq<Condition>, sd: SensorData, i: nat)
    requires 1 <= i <= |conds| && AllAbout(conds, sd)
    ensures Walk(conds, sd, i, Some(Fold(conds[..i], sd))) == Some(Fold(conds, sd))
    decreases |conds| - i
  {
    if i == |conds| {
      assert conds[..i] == conds;
    } else {
      var cur := Evaluate(conds[i], sd);
      var prefix := conds[..i + 1];
      assert prefix[..|prefix| - 1] == conds[..i];
      assert prefix[|prefix| - 2] == conds[i - 1] && prefix[|prefix| - 1] == conds[i];
      assert Fold(prefix, sd) == Apply(conds[i - 1].next, Fold(conds[..i], sd), cur);
      WalkFromPrefix(conds, sd, i + 1);
    }
  }

  /** When every condition is about the reading's sensor, the chain is the
      left fold: it always yields a value and never stays `None`. */
  lemma WalkIsFold(conds: seq<Condition>, sd: SensorData)
    requires |conds| >= 1 && AllAbout(conds, sd)
    ensures Walk(conds, sd, 0, None) == Some(Fold(conds, sd))
  {
    assert Fold(conds[..1], sd) == Evaluate(conds[0], sd);
    WalkFromPrefix(conds, sd, 1);
  }

  /** Every link that joins two conditions is this one. */
  predicate LinksAre(conds: seq<Condition>, link: Link) {
    forall k :: 0 <= k < |conds| - 1 ==> conds[k].next == link
  }

  /** A fold joined by AND holds exactly when every condition holds. */
  lemma {:induction false} FoldAllAnd(conds: seq<Condition>, sd: SensorData)
    requires |conds| >= 1 && LinksAre(conds, And)
    ensures Fold(conds, sd) <==> forall k :: 0 <= k < |conds| ==> Evaluate(conds[k], sd)
    decreases |conds|
  {
    if |conds| > 1 {
      var init := conds[..|conds| - 1];
      assert LinksAre(init, And);
      FoldAllAnd(init, sd);
      assert forall k :: 0 <= k < |init| ==> init[k] == conds[k];
    }
  }

  /** A fold joined by OR holds exactly when some condition holds. */
  lemma {:induction false} FoldAnyOr(conds: seq<Condition>, sd: SensorData)
    requires |conds| >= 1 && LinksAre(conds, Or)
    ensures Fold(conds, sd) <==> exists k :: 0 <= k < |conds| && Evaluate(conds[k], sd)
    decreases |conds|
  {
    if |conds| > 1 {
      var init := conds[..|conds| - 1];
      assert LinksAre(init, Or);
      FoldAnyOr(init, sd);
      assert forall k :: 0 <= k < |init| ==> init[k] == conds[k];
    }
  }

  /** A strategy whose conditions (in id order) are all about the reading's
      sensor and all joined by AND fires exactly when every condition
      holds. */
  lemma AllAndFiresIffEveryConditionHolds(s: Strategy, sd: SensorData)
    requires s.enabled && sd.sensor.device == s.trigger && |s.conditions| >= 1
    requires Sorting.SortedBy(s.conditions, ConditionKey)
    requires AllAbout(s.conditions, sd) && LinksAre(s.conditions, And)
    ensures EvaluateConditions(s, sd) <==> forall k :: 0 <= k < |s.conditions| ==> Evaluate(s.conditions[k], sd)
  {
    Sorting.SortedIsFixed(s.conditions, ConditionKey);
    WalkIsFold(s.conditions, sd);
    FoldAllAnd(s.conditions, sd);
  }

  /** The same with OR: the strategy fires exactly when some condition
      holds. */
  lemma AllOrFiresIffSomeConditionHolds(s: Strategy, sd: SensorData)
    requires s.enabled && sd.sensor.device == s.trigger && |s.conditions| >= 1
    requires Sorting.SortedBy(s.conditions, ConditionKey)
    requires AllAbout(s.conditions, sd) && LinksAre(s.conditions, Or)
    ensures EvaluateConditions(s, sd) <==> exists k :: 0 <= k < |s.conditions| && Evaluate(s.conditions[k], sd)
  {
    Sorting.SortedIsFixed(s.conditions, ConditionKey);
    WalkIsFold(s.conditions, sd);
    FoldAnyOr(s.conditions, sd);
  }

  lemma {:induction false} WalkStaysNone(conds: seq<Condition>, sd: SensorData, i: nat)
    requires 1 <= i <= |conds| && LinksAre(conds, And)
    ensures Walk(conds, sd, i, None) == None
    decreases |conds| - i
  {
    if i < |conds| {
      WalkStaysNone(conds, sd, i + 1);
    }
  }

  /** Only position 0 seeds the running value: when the first condition is
      about another sensor and every link is AND, `None and x` stays `None`
      and the strategy never fires, whatever the readings. */
  lemma SkippedHeadNeverFires(s: Strategy, sd: SensorData)
    requires Sorting.SortedBy(s.conditions, ConditionKey)
    requires |s.conditions| >= 1 && s.conditions[0].sensor != sd.sensor.pk
    requires LinksAre(s.conditions, And)
    ensures !EvaluateConditions(s, sd)
  {
    Sorting.SortedIsFixed(s.conditions, ConditionKey);
    if |s.conditions| >= 1 {
      WalkStaysNone(s.conditions, sd, 1);
    }
  }

  /** With a skipped condition in the middle, its own link (not the link
      of the last condition evaluated) joins its neighbours: for A (OR) B
      (AND) C where B is about another sensor, the result is `A and C`. */
  lemma SkippedConditionLendsItsLink(a: Condition, b: Condition, c: Condition, sd: SensorData)
    requires a.sensor == sd.sensor.pk && c.sensor == sd.sensor.pk && b.sensor != sd.sensor.pk
    requires a.next == Or && b.next == And
    ensures Walk([a, b, c], sd, 0, None) == Some(Evaluate(a, sd) && Evaluate(c, sd))
  {
    var conds := [a, b, c];
    var first := Some(Evaluate(a, sd));
    var last := Combine(b.next, first, Evaluate(c, sd));
    assert Walk(conds, sd, 2, first) == Walk(conds, sd, 3, last);
    assert Walk(conds, sd, 1, first) == Walk(conds, sd, 2, first);
    assert Walk(conds, sd, 0, None) == Walk(conds, sd, 1, first);
  }

  /** What an execution log records about the action's outcome. */
  datatype Outcome = Succeeded(message: string) | Failed(error: Actions.ActionError)

  /** One `StrategyLog` row. */
  datatype StrategyLog = StrategyLog(strategy: nat, reading: nat, action: nat, result: bool, outcome: Outcome)

  function TriggerOf(s: Strategy, sd: SensorData, device: Device): Actions.Trigger {
    Actions.Trigger(s.pk, s.name, s.ownerEmail, device, sd)
  }

  /** The log rows for `actions`, one per action in order: an action that
      raised is logged as a failure and the loop goes on. */
  function RunActions(s: Strategy, actions: seq<Actions.Action>, sd: SensorData, device: Device,
                      env: Actions.Env): (logs: seq<StrategyLog>)
    ensures |logs| == |actions|
    ensures forall k :: 0 <= k < |actions| ==>
              var e := Actions.Execute(actions[k], TriggerOf(s, sd, device), env);
              logs[k].strategy == s.pk && logs[k].reading == sd.pk && logs[k].action == actions[k].pk
              && (logs[k].result <==> e.Ok?)
              && (e.Err? ==> logs[k].outcome == Failed(e.error))
              && (e.Ok? ==> logs[k].outcome
                            == Succeeded("动作 " + Actions.TypeDisplay(actions[k].kind) + " 执行成功"))
  {
    if |actions| == 0 then []
    else
      var a := actions[0];
      var log := match Actions.Execute(a, TriggerOf(s, sd, device), env)
        case Ok(_) => StrategyLog(s.pk, sd.pk, a.pk, true, Succeeded("动作 " + Actions.TypeDisplay(a.kind) + " 执行成功"))
        case Err(e) => StrategyLog(s.pk, sd.pk, a.pk, false, Failed(e));
      var rest := RunActions(s, actions[1..], sd, device, env);
      assert forall k :: 1 <= k < |actions| ==> actions[k] == actions[1..][k - 1];
      [log] + rest
  }

  /** `Strategy.execute_actions`. */
  function ExecuteActions(s: Strategy, sd: SensorData, device: Device, env: Actions.Env): (logs: seq<StrategyLog>)
    ensures |logs| == |s.actions|
  {
    RunActions(s, s.actions, sd, device, env)
  }

  /** Actions are isolated from each other: running two lists is running
      each, one after the other. */
  lemma {:induction false} ActionsAreIsolated(s: Strategy, xs: seq<Actions.Action>, ys: seq<Actions.Action>,
                                              sd: SensorData, device: Device, env: Actions.Env)
    ensures RunActions(s, xs + ys, sd, device, env)
            == RunActions(s, xs, sd, device, env) + RunActions(s, ys, sd, device, env)
    decreases |xs|
  {
    if |xs| > 0 {
      assert (xs + ys)[1..] == xs[1..] + ys;
      ActionsAreIsolated(s, xs[1..], ys, sd, device, env);
      assert (xs + ys)[0] == xs[0];
    } else {
      assert xs + ys == ys;
    }
  }
}
