/** The `post_save` receiver for sensor readings: every new reading is
    offered to the enabled strategies whose trigger device produced it, and
    each strategy whose conditions hold runs its actions. Also the
    consequence, across the ingestion path and the rule engine, of the
    normaliser never writing the boolean slot. */
module Dispatch {
  import opened Wrappers
  import opened Json
  import opened Devices
  import Ingest
  import Rules
  import Actions

  /** The filter `trigger_source_device=device, is_enabled=True`. */
  predicate Candidate(s: Rules.Strategy, sd: SensorData) {
    s.enabled && s.trigger == sd.sensor.device
  }

  /** A strategy the reading sets off. */
  predicate Fires(s: Rules.Strategy, sd: SensorData) {
    Candidate(s, sd) && Rules.EvaluateConditions(s, sd)
  }

  /** The log rows one strategy writes for the reading: its actions' rows
      when it fires, none otherwise. */
  function StrategyLogs(s: Rules.Strategy, sd: SensorData, device: Device, env: Actions.Env): (logs: seq<Rules.StrategyLog>)
    ensures logs != [] ==> Fires(s, sd)
    ensures Fires(s, sd) ==> |logs| == |s.actions|
    ensures forall k :: 0 <= k < |logs| ==> logs[k].strategy == s.pk
  {
    if Fires(s, sd) then Rules.RunActions(s, s.actions, sd, device, env) else []
  }

  /** A strategy at position `from` or later fires and wrote this row. */
  predicate WrittenByFiring(log: Rules.StrategyLog, strategies: seq<Rules.Strategy>, from: nat, sd: SensorData) {
    exists j :: from <= j < |strategies| && Fires(strategies[j], sd) && log.strategy == strategies[j].pk
  }

  /** The loop over the selected strategies, in query order, from position
      `from` on; `logsOf` is what one strategy writes. */
  function RunAll(strategies: seq<Rules.Strategy>, from: nat,
                  logsOf: Rules.Strategy -> seq<Rules.StrategyLog>): (logs: seq<Rules.StrategyLog>)
    requires from <= |strategies|
    ensures forall k :: 0 <= k < |logs| ==>
              exists j :: from <= j < |strategies| && logs[k] in logsOf(strategies[j])
    ensures (forall j :: from <= j < |strategies| ==> logsOf(strategies[j]) == []) ==> logs == []
    decreases |strategies| - from
  {
    if from == |strategies| then []
    else
      var here := logsOf(strategies[from]);
      var rest := RunAll(strategies, from + 1, logsOf);
      var logs := here + rest;
      assert forall k :: 0 <= k < |logs| ==>
               exists j :: from <= j < |strategies| && logs[k] in logsOf(strategies[j]) by {
        forall k | 0 <= k < |logs|
          ensures exists j :: from <= j < |strategies| && logs[k] in logsOf(strategies[j])
        {
          if k < |here| {
            assert logs[k] == here[k];
          } else {
            assert logs[k] == rest[k - |here|];
          }
        }
      }
      logs
  }

  /** What one strategy writes for this reading. */
  function LogsOf(sd: SensorData, device: Device, env: Actions.Env): Rules.Strategy -> seq<Rules.StrategyLog> {
    (s: Rules.Strategy) => StrategyLogs(s, sd, device, env)
  }

  /** The strategy loop of the receiver: each strategy's rows, one strategy
      after another. */
  function RunStrategies(strategies: seq<Rules.Strategy>, from: nat, sd: SensorData, device: Device,
                         env: Actions.Env): (logs: seq<Rules.StrategyLog>)
    requires from <= |strategies|
    ensures forall k :: 0 <= k < |logs| ==> WrittenByFiring(logs[k], strategies, from, sd)
    ensures (forall j :: from <= j < |strategies| ==> !Fires(strategies[j], sd)) ==> logs == []
  {
    RunAllFromFiring(strategies, from, sd, device, env);
    RunAllQuietWithoutFiring(strategies, from, sd, device, env);
    RunAll(strategies, from, LogsOf(sd, device, env))
  }

  lemma RunAllFromFiring(strategies: seq<Rules.Strategy>, from: nat, sd: SensorData, device: Device, env: Actions.Env)
    requires from <= |strategies|
    ensures var logs := RunAll(strategies, from, LogsOf(sd, device, env));
            forall k :: 0 <= k < |logs| ==> WrittenByFiring(logs[k], strategies, from, sd)
  {
    var logsOf := LogsOf(sd, device, env);
    var logs := RunAll(strategies, from, logsOf);
    forall k | 0 <= k < |logs| ensures WrittenByFiring(logs[k], strategies, from, sd) {
      var j :| from <= j < |strategies| && logs[k] in logsOf(strategies[j]);
      var own := StrategyLogs(strategies[j], sd, device, env);
      var m :| 0 <= m < |own| && own[m] == logs[k];
      assert own[m].strategy == strategies[j].pk;
    }
  }

  lemma RunAllQuietWithoutFiring(strategies: seq<Rules.Strategy>, from: nat, sd: SensorData, device: Device,
                                 env: Actions.Env)
    requires from <= |strategies|
    ensures (forall j :: from <= j < |strategies| ==> !Fires(strategies[j], sd)) ==>
              RunAll(strategies, from, LogsOf(sd, device, env)) == []
  {
    var logsOf := LogsOf(sd, device, env);
    if forall j :: from <= j < |strategies| ==> !Fires(strategies[j], sd) {
      forall j | from <= j < |strategies| ensures logsOf(strategies[j]) == [] {
        assert !Fires(strategies[j], sd);
      }
    }
  }

  /** `evaluate_strategies(sender, instance, created)`: a save that did not
      create the row does nothing. */
  function EvaluateStrategies(created: bool, sd: SensorData, device: Device,
                              strategies: seq<Rules.Strategy>, env: Actions.Env): (logs: seq<Rules.StrategyLog>)
    ensures !created ==> logs == []
    ensures forall k :: 0 <= k < |logs| ==> WrittenByFiring(logs[k], strategies, 0, sd)
    ensures (forall j :: 0 <= j < |strategies| ==> !Candidate(strategies[j], sd)) ==> logs == []
  {
    if !created then [] else RunStrategies(strategies, 0, sd, device, env)
  }

  /** Strategies are isolated from each other: what one does neither
      depends on nor prevents what the others do. */
  lemma StrategiesAreIsolated(xs: seq<Rules.Strategy>, ys: seq<Rules.Strategy>, from: nat,
                              sd: SensorData, device: Device, env: Actions.Env)
    requires from <= |xs|
    ensures RunStrategies(xs + ys, from, sd, device, env)
            == RunStrategies(xs, from, sd, device, env) + RunStrategies(ys, 0, sd, device, env)
  {
    RunAllSplits(xs, ys, from, LogsOf(sd, device, env));
  }

  /** The loop over `xs + ys` is the loop over `xs` followed by the loop
      over `ys`. */
  lemma {:induction false} RunAllSplits(xs: seq<Rules.Strategy>, ys: seq<Rules.Strategy>, from: nat,
                                        logsOf: Rules.Strategy -> seq<Rules.StrategyLog>)
    requires from <= |xs|
    ensures RunAll(xs + ys, from, logsOf) == RunAll(xs, from, logsOf) + RunAll(ys, 0, logsOf)
    decreases |xs| - from
  {
    if from == |xs| {
      RunFromShift(xs, ys, 0, logsOf);
    } else {
      var here := logsOf(xs[from]);
      assert (xs + ys)[from] == xs[from];
      assert RunAll(xs + ys, from, logsOf) == here + RunAll(xs + ys, from + 1, logsOf);
      assert RunAll(xs, from, logsOf) == here + RunAll(xs, from + 1, logsOf);
      RunAllSplits(xs, ys, from + 1, logsOf);
      assert here + (RunAll(xs, from + 1, logsOf) + RunAll(ys, 0, logsOf))
             == here + RunAll(xs, from + 1, logsOf) + RunAll(ys, 0, logsOf);
    }
  }

  /** Running the tail of `xs + ys` that lies in `ys` is running `ys`. */
  lemma {:induction false} RunFromShift(xs: seq<Rules.Strategy>, ys: seq<Rules.Strategy>, j: nat,
                                        logsOf: Rules.Strategy -> seq<Rules.StrategyLog>)
    requires j <= |ys|
    ensures RunAll(xs + ys, |xs| + j, logsOf) == RunAll(ys, j, logsOf)
    decreases |ys| - j
  {
    if j < |ys| {
      assert (xs + ys)[|xs| + j] == ys[j];
      RunFromShift(xs, ys, j + 1, logsOf);
    }
  }

  /** A list of one strategy writes exactly that strategy's rows. */
  lemma OneStrategy(s: Rules.Strategy, sd: SensorData, device: Device, env: Actions.Env)
    ensures RunStrategies([s], 0, sd, device, env) == StrategyLogs(s, sd, device, env)
  {
    assert RunStrategies([s], 1, sd, device, env) == [];
  }

  /** A boolean-typed condition never holds for a reading whose boolean
      slot is empty. */
  lemma BooleanConditionNeedsBooleanSlot(c: Rules.Condition, sd: SensorData)
    requires c.valueType == Rules.BooleanType && sd.valueBool.None?
    ensures !Rules.Evaluate(c, sd)
  {
  }

  /** Every reading stored by the ingestion path (TCP or MQTT) leaves the
      boolean slot empty, so no boolean-typed condition holds for it; a
      strategy whose conditions are all boolean-typed never fires on
      ingested data. */
  lemma IngestedReadingsNeverSatisfyBooleanConditions(
    db: Db, k: nat, payload: Json, now: int, pyStr: Ingest.PyStr, fails: bool, s: Rules.Strategy)
    requires k < |db.devices|
    requires forall j :: 0 <= j < |s.conditions| ==> s.conditions[j].valueType == Rules.BooleanType
    ensures forall sd :: sd in Ingest.Store(db, k, payload, now, pyStr, fails).created ==>
              !Rules.EvaluateConditions(s, sd)
  {
    var created := Ingest.Store(db, k, payload, now, pyStr, fails).created;
    forall sd | sd in created ensures !Rules.EvaluateConditions(s, sd) {
      assert sd.valueBool.None?;
      var ordered := Rules.Ordered(s);
      forall j | 0 <= j < |ordered| ensures !Rules.Evaluate(ordered[j], sd) {
        assert ordered[j] in multiset(s.conditions);
        var i :| 0 <= i < |s.conditions| && s.conditions[i] == ordered[j];
      }
    }
  }
}
