/**
 The command service over the tables of one base key: the operations as the source performs
 them, one table write after the other, each proved against its specification in
 CommandTables.
 */
module CommandStore {
  import opened Wrappers
  import opened CommandModel
  import T = CommandTables

  class CommandService {
    var commands: map<int, Row>
    var data: Option<DataRow>
    var history: map<int, DataRow>

    ghost function Contents(): T.Tables
      reads this
    {
      T.Tables(commands, data, history)
    }

    constructor ()
      ensures Contents() == T.Tables(map[], None, map[])
    {
      commands, data, history := map[], None, map[];
    }

    // getLatestItem: up in steps of five while versions are present, then down by one.
    method GetLatestItem() returns (item: Option<Row>, ghost probes: nat)
      ensures T.Latest(Contents()).None? ==> item == None
      ensures T.Latest(Contents()).Some? ==>
                T.Latest(Contents()).value in commands && item == Some(commands[T.Latest(Contents()).value])
      ensures probes == T.Search(commands, T.DataVersion(Contents()) + T.LOOK_UP_STEP, true).1
    {
      var ver := (if data.Some? then data.value.version else 0) + T.LOOK_UP_STEP;
      ghost var start := ver;
      var isUp := true;
      item, probes := None, 0;
      while true
        invariant T.Search(commands, start, true) == (T.Search(commands, ver, isUp).0, probes + T.Search(commands, ver, isUp).1)
        decreases isUp, if isUp then (set k | k in commands && k >= ver) else {}, ver
      {
        if ver <= 0 {
          return None, probes;
        }
        probes := probes + 1;
        if ver in commands {
          if !isUp {
            return Some(commands[ver]), probes;
          }
          assert ver in (set k | k in commands && k >= ver);
          ver := ver + T.LOOK_UP_STEP;
        } else {
          ver, isUp := ver - 1, false;
        }
      }
    }

    method UpdateStatus(v: int, st: Status)
      requires v in commands
      modifies `commands
      ensures Contents() == old(T.SetStatus(Contents(), v, st))
    {
      commands := commands[v := commands[v].(status := st)];
    }

    // updateTtl: read the previous row, put it back with a time-to-live.
    method UpdateTtl(v: int, ttl: Option<int>)
      modifies `commands
      ensures Contents() == old(T.AgePrevious(Contents(), v, ttl))
    {
      if v <= 1 || v - 1 !in commands {
        return;
      }
      var row := commands[v - 1];
      row := row.(command := row.command.(ttl := ttl));
      commands := commands[v - 1 := row];
    }

    // HistoryService.publish.
    method CopyToHistory(ttl: Option<int>)
      modifies `history
      ensures Contents() == old(T.CopyToHistory(Contents(), ttl))
    {
      if data.None? {
        return;
      }
      var row := data.value;
      row := row.(ttl := ttl);
      history := history[row.version := row];
    }

    // DataService.publish.
    method PublishData(cmd: Command)
      modifies `data
      ensures Contents() == old(T.WriteData(Contents(), cmd))
    {
      data := Some(Project(cmd, data));
    }

    // A put on the condition that the version is not taken.
    method PutNew(v: int, row: Row) returns (ok: bool)
      modifies `commands
      ensures ok == (v !in old(commands))
      ensures commands == if ok then old(commands)[v := row] else old(commands)
    {
      ok := v !in commands;
      if ok {
        commands := commands[v := row];
      }
    }

    method PublishAsync(input: T.Input, call: T.Call) returns (result: T.Outcome)
      modifies `commands
      ensures (Contents(), result) == old(T.PublishAsync(Contents(), input, call))
    {
      var inputVersion := if input.version.Some? then input.version.value else 0;
      var item: Option<Row> := None;
      if inputVersion == T.VERSION_LATEST {
        ghost var probes;
        item, probes := GetLatestItem();
        inputVersion := if item.Some? then item.value.command.version else 0;
      } else if inputVersion > 0 {
        if inputVersion !in commands {
          return Failure(T.BadVersion);
        }
        item := Some(commands[inputVersion]);
      }
      if item.Some? && T.Unchanged(item.value.command.business, item.value.command.ttl, input) {
        return Success(None);
      }
      var row := Row(T.NewCommand(input, inputVersion + 1, call, call.stamp), Unset, None, false);
      var ok := PutNew(inputVersion + 1, row);
      result := if ok then Success(Some(row)) else Failure(T.ConditionFailed);
    }

    method Duplicate(v: int, call: T.Call) returns (result: T.Outcome)
      modifies `commands
      ensures (Contents(), result) == old(T.Duplicate(Contents(), v, call))
    {
      if v !in commands {
        return Failure(T.NotFound);
      }
      var item := commands[v];
      var next := item.command.version + 1;
      item := item.(command := item.command.(version := next, requestId := call.requestId, updated := call.stamp));
      var ok := PutNew(next, item);
      result := if ok then Success(Some(item)) else Failure(T.ConditionFailed);
    }

    // publishSync: the command row first, then the pipeline in the order of the state
    // machine; an exception in stage `broken` marks the row as failed and is passed on.
    method PublishSync(input: T.Input, call: T.Call, broken: Option<T.Stage>) returns (result: T.Outcome)
      modifies this
      ensures (Contents(), result) == old(T.PublishSync(Contents(), input, call, broken))
    {
      var item := data;
      var itemVersion := if item.Some? then item.value.version else 0;
      var inputVersion := if input.version.Some? then input.version.value else 0;
      if inputVersion != T.VERSION_LATEST && itemVersion != inputVersion {
        return Failure(T.BadVersion);
      }
      if item.Some? && T.Unchanged(item.value.business, item.value.ttl, input) {
        return Success(None);
      }
      var v := itemVersion + 1;
      var updated := if item.Some? then FirstStamp(item.value.updated, call.stamp) else call.stamp;
      var cmd := T.NewCommand(input, v, call, updated);
      var ok := PutNew(v, Row(cmd, At(StepName.PublishSync, Started), None, true));
      if !ok {
        return Failure(T.ConditionFailed);
      }
      var reached := RunStages(cmd, call, broken);
      if reached.Some? {
        UpdateStatus(v, At(StepName.PublishSync, Failed));
        return Failure(T.Broken(reached.value));
      }
      UpdateStatus(v, At(Finish, Finished));
      result := Success(Some(Row(cmd, At(Finish, Finished), None, true)));
    }

    // The body of publishSync's try block, up to its status write.
    method RunStages(cmd: Command, call: T.Call, broken: Option<T.Stage>) returns (stopped: Option<T.Stage>)
      requires cmd.version in commands
      modifies this
      ensures stopped == broken && cmd.version in commands
      ensures Contents() == old(T.SyncUpTo(Contents(), cmd, call, if broken.Some? then broken.value else T.AtStatus))
    {
      if broken == Some(T.AtTtl) {
        return broken;
      }
      UpdateTtl(cmd.version, call.commandTtl);
      if broken == Some(T.AtHistory) {
        return broken;
      }
      CopyToHistory(call.historyTtl);
      if broken == Some(T.AtData) {
        return broken;
      }
      PublishData(cmd);
      stopped := broken;
    }

    // One execution of the asynchronous pipeline, undisturbed: the handler of each step,
    // between its two status writes.
    method Execute(v: int, cmd: Command, call: T.Call) returns (verdict: int)
      requires v in commands
      modifies this
      ensures verdict == old(T.CheckedVersion(Contents(), v))
      ensures Contents() == old(T.RunPipeline(Contents(), v, cmd, call))
    {
      UpdateStatus(v, At(CheckVersion, Started));
      var nextVersion := 1 + (if data.Some? then data.value.version else 0);
      verdict := if nextVersion == v then 0
                 else if nextVersion < v then (if v - 1 in commands then 1 else 0)
                 else -1;
      UpdateStatus(v, At(CheckVersion, Finished));
      if verdict == 0 {
        Apply(v, cmd, call);
      }
    }

    method Apply(v: int, cmd: Command, call: T.Call)
      requires v in commands
      modifies this
      ensures Contents() == old(T.ApplySteps(Contents(), v, cmd, call))
    {
      UpdateStatus(v, At(SetTtlCommand, Started));
      UpdateTtl(v, call.commandTtl);
      UpdateStatus(v, At(SetTtlCommand, Finished));
      UpdateStatus(v, At(HistoryCopy, Started));
      CopyToHistory(call.historyTtl);
      UpdateStatus(v, At(HistoryCopy, Finished));
      UpdateStatus(v, At(TransformData, Started));
      UpdateStatus(v, At(TransformData, Finished));
      UpdateStatus(v, At(SyncData, Started));
      PublishData(cmd);
      UpdateStatus(v, At(SyncData, Finished));
      UpdateStatus(v, At(Finish, Started));
      UpdateStatus(v, At(Finish, Finished));
    }
  }
}
