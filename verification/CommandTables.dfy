/**
 What the operations of the command service do to the three tables of one base key when
 they run alone: the specification that the class CommandStore is proved against.
 */
module CommandTables {
  import opened Wrappers
  import opened CommandModel

  const VERSION_LATEST := -1
  const LOOK_UP_STEP := 5

  datatype Tables = Tables(commands: map<int, Row>, data: Option<DataRow>, history: map<int, DataRow>)

  // What a caller passes; `version` may be absent, and so may `ttl`.
  datatype Input = Input(version: Option<int>, business: Business, ttl: Option<int>)

  // The invocation: request id, caller and time, and what the TTL service computes for the
  // data, history and command tables.
  datatype Call = Call(requestId: Option<string>, stamp: Stamp,
                       dataTtl: Option<int>, historyTtl: Option<int>, commandTtl: Option<int>)

  // The part of a synchronous publish in which an exception is thrown.
  datatype Stage = AtTtl | AtHistory | AtData | AtHandlers | AtStatus

  datatype Error = BadVersion | NotFound | ConditionFailed | Broken(stage: Stage)

  // A stored command, nothing because the command changes nothing, or an error.
  type Outcome = Result<Option<Row>, Error>

  // ---------------------------------------------------------------- the latest version

  // Up in steps of five until a version is missing, then down to the first one present;
  // with the number of rows read on the way.
  function Search(rows: map<int, Row>, ver: int, isUp: bool): (Option<int>, nat)
    decreases isUp, if isUp then (set k | k in rows && k >= ver) else {}, ver
  {
    if ver <= 0 then (None, 0)
    else if ver in rows then
      if !isUp then (Some(ver), 1)
      else
        assert ver in (set k | k in rows && k >= ver);
        var (found, probes) := Search(rows, ver + LOOK_UP_STEP, true);
        (found, probes + 1)
    else
      var (found, probes) := Search(rows, ver - 1, false);
      (found, probes + 1)
  }

  function DataVersion(t: Tables): int {
    if t.data.Some? then t.data.value.version else 0
  }

  function Latest(t: Tables): Option<int> {
    Search(t.commands, DataVersion(t) + LOOK_UP_STEP, true).0
  }

  // The stored versions are exactly 1..n.
  ghost predicate IsChain(rows: map<int, Row>, n: nat) {
    && (forall k :: k in rows <==> 1 <= k <= n)
    && (forall k :: k in rows ==> rows[k].command.version == k)
  }

  lemma {:induction false} SearchDown(rows: map<int, Row>, n: nat, ver: int)
    requires IsChain(rows, n) && ver >= n
    ensures Search(rows, ver, false).0 == if n == 0 then None else Some(n)
    ensures Search(rows, ver, false).1 == if n == 0 then ver else ver - n + 1
    decreases ver
  {
    if ver > n {
      SearchDown(rows, n, ver - 1);
    }
  }

  lemma {:induction false} SearchUp(rows: map<int, Row>, n: nat, ver: int)
    requires IsChain(rows, n) && 1 <= ver <= n + LOOK_UP_STEP
    ensures Search(rows, ver, true).0 == if n == 0 then None else Some(n)
    ensures Search(rows, ver, true).1 <= (n + LOOK_UP_STEP - ver) / LOOK_UP_STEP + 6
    decreases n + LOOK_UP_STEP - ver
  {
    if ver <= n {
      SearchUp(rows, n, ver + LOOK_UP_STEP);
    } else {
      SearchDown(rows, n, ver - 1);
    }
  }

  // getLatestItem finds the end of the chain, in a number of reads that grows by one for
  // every five versions the data row is behind.
  lemma LatestIsEndOfChain(t: Tables, n: nat)
    requires IsChain(t.commands, n) && 0 <= DataVersion(t) <= n
    ensures Latest(t) == if n == 0 then None else Some(n)
    ensures Search(t.commands, DataVersion(t) + LOOK_UP_STEP, true).1 <= (n - DataVersion(t)) / LOOK_UP_STEP + 6
  {
    SearchUp(t.commands, n, DataVersion(t) + LOOK_UP_STEP);
  }

  // ---------------------------------------------------------------- publishing

  function SetStatus(t: Tables, v: int, st: Status): Tables {
    if v in t.commands then t.(commands := t.commands[v := t.commands[v].(status := st)]) else t
  }

  // updateTtl: the previous version gets a time-to-live, if there is one.
  function AgePrevious(t: Tables, v: int, ttl: Option<int>): Tables {
    if v <= 1 || v - 1 !in t.commands then t
    else
      var row := t.commands[v - 1];
      t.(commands := t.commands[v - 1 := row.(command := row.command.(ttl := ttl))])
  }

  // HistoryService.publish: a copy of the data row, before it changes.
  function CopyToHistory(t: Tables, ttl: Option<int>): Tables {
    if t.data.None? then t
    else t.(history := t.history[t.data.value.version := t.data.value.(ttl := ttl)])
  }

  // DataService.publish.
  function WriteData(t: Tables, cmd: Command): Tables {
    t.(data := Some(Project(cmd, t.data)))
  }

  function NewCommand(input: Input, version: int, call: Call, updated: Stamp): Command {
    Command(version, input.business, OrElse(input.ttl, call.dataTtl), call.requestId, call.stamp, updated)
  }

  // isNotCommandDirty compares the fields of the input, with absent read as null.
  predicate Unchanged(business: Business, ttl: Option<int>, input: Input) {
    business == input.business && ttl == input.ttl
  }

  // The version publishAsync builds on, with the row found there.
  function Base(t: Tables, input: Input): Result<(int, Option<Row>), Error> {
    var asked := if input.version.Some? then input.version.value else 0;
    if asked == VERSION_LATEST then
      var found := Latest(t);
      if found.Some? && found.value in t.commands
      then Success((t.commands[found.value].command.version, Some(t.commands[found.value])))
      else Success((0, None))
    else if asked > 0 then
      if asked in t.commands then Success((asked, Some(t.commands[asked]))) else Failure(BadVersion)
    else Success((asked, None))
  }

  function PublishAsync(t: Tables, input: Input, call: Call): (Tables, Outcome) {
    match Base(t, input)
    case Failure(e) => (t, Failure(e))
    case Success((version, item)) =>
      if item.Some? && Unchanged(item.value.command.business, item.value.command.ttl, input) then (t, Success(None))
      else if version + 1 in t.commands then (t, Failure(ConditionFailed))
      else
        var row := Row(NewCommand(input, version + 1, call, call.stamp), Unset, None, false);
        (t.(commands := t.commands[version + 1 := row]), Success(Some(row)))
  }

  // duplicate: everything of the row is copied, its status, token and sync marker included.
  function Duplicate(t: Tables, v: int, call: Call): (Tables, Outcome) {
    if v !in t.commands then (t, Failure(NotFound))
    else
      var row := t.commands[v];
      var next := row.command.version + 1;
      if next in t.commands then (t, Failure(ConditionFailed))
      else
        var copy := row.(command := row.command.(version := next, requestId := call.requestId, updated := call.stamp));
        (t.(commands := t.commands[next := copy]), Success(Some(copy)))
  }

  function SyncBase(t: Tables, input: Input): Result<int, Error> {
    var asked := if input.version.Some? then input.version.value else 0;
    if asked == VERSION_LATEST || DataVersion(t) == asked then Success(DataVersion(t)) else Failure(BadVersion)
  }

  // The tables when the synchronous pipeline has done everything before `stage`.
  function SyncUpTo(t: Tables, cmd: Command, call: Call, stage: Stage): Tables {
    var aged := AgePrevious(t, cmd.version, call.commandTtl);
    var copied := CopyToHistory(aged, call.historyTtl);
    match stage
    case AtTtl => t
    case AtHistory => aged
    case AtData => copied
    case _ => WriteData(copied, cmd)
  }

  // publishSync; `broken` is the stage that throws, if any.
  function PublishSync(t: Tables, input: Input, call: Call, broken: Option<Stage>): (Tables, Outcome) {
    match SyncBase(t, input)
    case Failure(e) => (t, Failure(e))
    case Success(version) =>
      if t.data.Some? && Unchanged(t.data.value.business, t.data.value.ttl, input) then (t, Success(None))
      else if version + 1 in t.commands then (t, Failure(ConditionFailed))
      else
        var v := version + 1;
        var updated := if t.data.Some? then FirstStamp(t.data.value.updated, call.stamp) else call.stamp;
        var cmd := NewCommand(input, v, call, updated);
        var stored := t.(commands := t.commands[v := Row(cmd, At(CommandModel.PublishSync, Phase.Started), None, true)]);
        if broken.Some?
        then (SetStatus(SyncUpTo(stored, cmd, call, broken.value), v, At(CommandModel.PublishSync, Failed)),
              Failure(Broken(broken.value)))
        else
          var done := SetStatus(SyncUpTo(stored, cmd, call, AtStatus), v, At(Finish, Phase.Finished));
          (done, Success(Some(Row(cmd, At(Finish, Phase.Finished), None, true))))
  }

  // ---------------------------------------------------------------- the asynchronous pipeline, alone

  // checkVersion's verdict: 0 goes on, 1 waits for the predecessor, -1 fails.
  function CheckedVersion(t: Tables, v: int): int {
    var next := 1 + DataVersion(t);
    if next == v then 0
    else if next < v then (if v - 1 in t.commands then 1 else 0)
    else -1
  }

  function Started(t: Tables, v: int, step: StepName): Tables {
    SetStatus(t, v, At(step, Phase.Started))
  }

  function Ended(t: Tables, v: int, step: StepName): Tables {
    SetStatus(t, v, At(step, Phase.Finished))
  }

  // The steps after check_version, each between its two status writes.
  function ApplySteps(t: Tables, v: int, cmd: Command, call: Call): Tables {
    var aged := Ended(AgePrevious(Started(t, v, SetTtlCommand), v, call.commandTtl), v, SetTtlCommand);
    var copied := Ended(CopyToHistory(Started(aged, v, HistoryCopy), call.historyTtl), v, HistoryCopy);
    var transformed := Ended(Started(copied, v, TransformData), v, TransformData);
    var synced := Ended(WriteData(Started(transformed, v, SyncData), cmd), v, SyncData);
    Ended(Started(synced, v, Finish), v, Finish)
  }

  // One execution of version v, from start to end, with nothing else at work on the key:
  // it applies the command, or stops after check_version.
  function RunPipeline(t: Tables, v: int, cmd: Command, call: Call): Tables {
    var checked := Ended(Started(t, v, CheckVersion), v, CheckVersion);
    if CheckedVersion(t, v) == 0 then ApplySteps(checked, v, cmd, call) else checked
  }

  // ---------------------------------------------------------------- main results

  // Everything stored is applied: the data row is at the end of the chain and carries what
  // the last command carried.
  ghost predicate Idle(t: Tables, n: nat) {
    && IsChain(t.commands, n)
    && DataVersion(t) == n
    && (t.data.Some? <==> n > 0)
    && (n > 0 ==> t.data.value.business == t.commands[n].command.business
                  && t.data.value.ttl == t.commands[n].command.ttl)
  }

  // Two data rows that differ at most in the updated* fields.
  predicate SameButUpdated(a: DataRow, b: DataRow) {
    a.(updated := b.updated) == b
  }

  datatype Verdict = Stored | Skipped | Refused

  function Judge(o: Outcome): Verdict {
    if o.Failure? then Refused else if o.value.None? then Skipped else Stored
  }

  function Asked(input: Input): int {
    if input.version.Some? then input.version.value else 0
  }

  // The input names a superseded version and repeats what that version said.
  predicate RepeatsOldVersion(t: Tables, n: nat, input: Input) {
    && 1 <= Asked(input) < n && Asked(input) in t.commands
    && Unchanged(t.commands[Asked(input)].command.business, t.commands[Asked(input)].command.ttl, input)
  }

  lemma AsyncOnIdle(t: Tables, n: nat, input: Input, call: Call)
    requires Idle(t, n)
    ensures Judge(PublishAsync(t, input, call).1) == Judge(PublishSync(t, input, call, None).1)
            <==> Asked(input) >= VERSION_LATEST && !RepeatsOldVersion(t, n, input)
  {
    LatestIsEndOfChain(t, n);
    if Asked(input) < VERSION_LATEST {
      assert Asked(input) + 1 !in t.commands;
    }
  }

  lemma StoredOnIdle(t: Tables, n: nat, input: Input, call: Call)
    requires Idle(t, n) && Asked(input) >= VERSION_LATEST
    requires Judge(PublishAsync(t, input, call).1) == Stored
    ensures PublishAsync(t, input, call).0 ==
            t.(commands := t.commands[n + 1 := Row(NewCommand(input, n + 1, call, call.stamp), Unset, None, false)])
    ensures Judge(PublishSync(t, input, call, None).1) == Stored
  {
    LatestIsEndOfChain(t, n);
  }

  // Sync and async agree, exactly: on an idle chain a command is stored, skipped or refused
  // by both paths alike if and only if its version is at least -1 and it does not repeat a
  // superseded version, which publishAsync skips and publishSync refuses.
  lemma SyncAndAsyncJudgeAlike(t: Tables, n: nat, input: Input, call: Call)
    requires Idle(t, n)
    ensures Judge(PublishAsync(t, input, call).1) == Judge(PublishSync(t, input, call, None).1)
            <==> Asked(input) >= VERSION_LATEST && !RepeatsOldVersion(t, n, input)
    ensures Asked(input) < VERSION_LATEST ==>
              Judge(PublishAsync(t, input, call).1) == Stored && Judge(PublishSync(t, input, call, None).1) == Refused
    ensures RepeatsOldVersion(t, n, input) ==>
              Judge(PublishAsync(t, input, call).1) == Skipped && Judge(PublishSync(t, input, call, None).1) == Refused
  {
    AsyncOnIdle(t, n, input, call);
    if Asked(input) < VERSION_LATEST {
      assert Asked(input) + 1 !in t.commands;
    }
  }

  // Rows that differ at most in status and time-to-live.
  ghost predicate SameCommands(a: map<int, Row>, b: map<int, Row>) {
    && a.Keys == b.Keys
    && (forall k :: k in a ==> a[k].command.version == b[k].command.version && a[k].command.business == b[k].command.business)
  }

  // The command rows differ at most in status and time-to-live, and row v only in status.
  ghost predicate Close(a: Tables, b: Tables, v: int) {
    && v in a.commands && v in b.commands && SameCommands(b.commands, a.commands)
    && b.commands[v] == a.commands[v].(status := b.commands[v].status)
  }

  lemma StatusClose(t: Tables, v: int, st: Status)
    requires v in t.commands
    ensures Close(t, SetStatus(t, v, st), v) && SetStatus(t, v, st).commands[v].status == st
  {
  }

  lemma AgeClose(t: Tables, v: int, ttl: Option<int>)
    requires v in t.commands
    ensures Close(t, AgePrevious(t, v, ttl), v)
  {
  }

  // A step that leaves the command rows alone, between its two status writes.
  lemma BracketClose(t: Tables, v: int, u: Tables, step: StepName)
    requires v in t.commands && u.commands == Started(t, v, step).commands
    ensures Close(t, Ended(u, v, step), v) && Ended(u, v, step).commands[v].status == At(step, Phase.Finished)
  {
    StatusClose(t, v, At(step, Phase.Started));
    StatusClose(u, v, At(step, Phase.Finished));
  }

  lemma ApplyStepsEffect(t: Tables, v: int, cmd: Command, call: Call)
    requires v in t.commands
    ensures var p := ApplySteps(t, v, cmd, call);
            && p.data == Some(Project(cmd, t.data)) && p.history == CopyToHistory(t, call.historyTtl).history
            && SameCommands(p.commands, t.commands)
            && p.commands[v] == t.commands[v].(status := At(Finish, Phase.Finished))
  {
    var begun := Started(t, v, SetTtlCommand);
    var older := AgePrevious(begun, v, call.commandTtl);
    var aged := Ended(older, v, SetTtlCommand);
    StatusClose(t, v, At(SetTtlCommand, Phase.Started));
    AgeClose(begun, v, call.commandTtl);
    StatusClose(older, v, At(SetTtlCommand, Phase.Finished));
    assert Close(t, aged, v);
    var copied := Ended(CopyToHistory(Started(aged, v, HistoryCopy), call.historyTtl), v, HistoryCopy);
    BracketClose(aged, v, CopyToHistory(Started(aged, v, HistoryCopy), call.historyTtl), HistoryCopy);
    var transformed := Ended(Started(copied, v, TransformData), v, TransformData);
    BracketClose(copied, v, Started(copied, v, TransformData), TransformData);
    var synced := Ended(WriteData(Started(transformed, v, SyncData), cmd), v, SyncData);
    BracketClose(transformed, v, WriteData(Started(transformed, v, SyncData), cmd), SyncData);
    BracketClose(synced, v, Started(synced, v, Finish), Finish);
  }

  // What one undisturbed execution leaves behind when the data row is one version behind.
  lemma PipelineApplies(t: Tables, v: int, cmd: Command, call: Call)
    requires v in t.commands && DataVersion(t) == v - 1
    ensures var p := RunPipeline(t, v, cmd, call);
            && p.data == Some(Project(cmd, t.data)) && p.history == CopyToHistory(t, call.historyTtl).history
            && SameCommands(p.commands, t.commands)
            && p.commands[v] == t.commands[v].(status := At(Finish, Phase.Finished))
  {
    var checked := Ended(Started(t, v, CheckVersion), v, CheckVersion);
    assert SameCommands(checked.commands, t.commands);
    ApplyStepsEffect(checked, v, cmd, call);
  }

  lemma SyncApplies(t: Tables, n: nat, input: Input, call: Call)
    requires IsChain(t.commands, n) && DataVersion(t) == n
    requires Judge(PublishSync(t, input, call, None).1) == Stored
    ensures var s := PublishSync(t, input, call, None).0;
            && s.data.Some? && s.data.value.version == n + 1 && s.data.value.business == input.business
            && s.data.value.ttl == OrElse(input.ttl, call.dataTtl)
            && SameButUpdated(Project(NewCommand(input, n + 1, call, call.stamp), t.data), s.data.value)
            && s.history == CopyToHistory(t, call.historyTtl).history
            && IsChain(s.commands, n + 1)
            && s.commands[n + 1].status == At(Finish, Phase.Finished)
            && s.commands[n + 1].command.business == input.business
            && s.commands[n + 1].command.ttl == OrElse(input.ttl, call.dataTtl)
  {
    var updated := if t.data.Some? then FirstStamp(t.data.value.updated, call.stamp) else call.stamp;
    assert PublishSync(t, input, call, None).0.data == Some(Project(NewCommand(input, n + 1, call, updated), t.data));
  }

  // And when the command is stored, running the asynchronous pipeline to its end leaves the
  // same history and, up to the updated* fields, the same data row as publishSync.
  lemma SyncAndAsyncConverge(t: Tables, n: nat, input: Input, call: Call)
    requires Idle(t, n) && Asked(input) >= VERSION_LATEST
    requires Judge(PublishAsync(t, input, call).1) == Stored
    ensures n + 1 in PublishAsync(t, input, call).0.commands
    ensures var a := PublishAsync(t, input, call).0;
            var s := PublishSync(t, input, call, None).0;
            var p := RunPipeline(a, n + 1, a.commands[n + 1].command, call);
            && p.history == s.history
            && p.data.Some? && s.data.Some? && SameButUpdated(p.data.value, s.data.value)
  {
    StoredOnIdle(t, n, input, call);
    SyncApplies(t, n, input, call);
    var a := PublishAsync(t, input, call).0;
    PipelineApplies(a, n + 1, a.commands[n + 1].command, call);
  }

  lemma SameCommandsKeepChain(a: map<int, Row>, b: map<int, Row>, n: nat)
    requires IsChain(a, n) && SameCommands(b, a)
    ensures IsChain(b, n)
  {
  }

  // The asynchronous path leaves an idle chain again, one version longer and finished.
  lemma AsyncEndsIdle(t: Tables, n: nat, input: Input, call: Call)
    requires Idle(t, n) && Asked(input) >= VERSION_LATEST
    requires Judge(PublishAsync(t, input, call).1) == Stored
    ensures n + 1 in PublishAsync(t, input, call).0.commands
    ensures var a := PublishAsync(t, input, call).0;
            var p := RunPipeline(a, n + 1, a.commands[n + 1].command, call);
            Idle(p, n + 1) && p.commands[n + 1].status == At(Finish, Phase.Finished)
  {
    StoredOnIdle(t, n, input, call);
    var a := PublishAsync(t, input, call).0;
    assert IsChain(a.commands, n + 1);
    PipelineApplies(a, n + 1, a.commands[n + 1].command, call);
    SameCommandsKeepChain(a.commands, RunPipeline(a, n + 1, a.commands[n + 1].command, call).commands, n + 1);
  }

  // So does the synchronous path.
  lemma SyncEndsIdle(t: Tables, n: nat, input: Input, call: Call)
    requires Idle(t, n) && Judge(PublishSync(t, input, call, None).1) == Stored
    ensures var s := PublishSync(t, input, call, None).0;
            Idle(s, n + 1) && s.commands[n + 1].status == At(Finish, Phase.Finished)
  {
    SyncApplies(t, n, input, call);
  }

  // One more publish keeps the chain gapless: it adds version n + 1 or nothing.
  lemma PublishAsyncExtendsChain(t: Tables, n: nat, input: Input, call: Call)
    requires IsChain(t.commands, n) && 0 <= DataVersion(t) <= n
    requires input.version.None? || input.version.value >= VERSION_LATEST
    ensures var (s, o) := PublishAsync(t, input, call);
            if Judge(o) == Stored then IsChain(s.commands, n + 1) && forall k :: k in t.commands ==> s.commands[k] == t.commands[k]
            else s == t
  {
    LatestIsEndOfChain(t, n);
  }

  lemma DuplicateExtendsChain(t: Tables, n: nat, v: int, call: Call)
    requires IsChain(t.commands, n)
    ensures var (s, o) := Duplicate(t, v, call);
            if Judge(o) == Stored then v == n && IsChain(s.commands, n + 1) else s == t
  {
  }

  // The synchronous pipeline up to some stage, and the status write that ends it.
  lemma SyncUpToEffect(t: Tables, cmd: Command, call: Call, stage: Stage, st: Status)
    requires cmd.version >= 0 && cmd.version in t.commands && t.commands[cmd.version].command.version == cmd.version
    requires IsChain(t.commands, cmd.version)
    ensures var s := SetStatus(SyncUpTo(t, cmd, call, stage), cmd.version, st);
            && IsChain(s.commands, cmd.version)
            && (if stage.AtHandlers? || stage.AtStatus?
                then s.data == Some(Project(cmd, t.data)) && s.history == CopyToHistory(t, call.historyTtl).history
                else s.data == t.data)
  {
  }

  // A synchronous publish is stored only when nothing is pending; and whatever stage
  // breaks, the chain stays gapless, and the data row is the new one exactly when the
  // exception came after it was written.
  lemma PublishSyncIsAtomic(t: Tables, n: nat, input: Input, call: Call, broken: Option<Stage>)
    requires IsChain(t.commands, n) && 0 <= DataVersion(t) <= n
    ensures var (s, o) := PublishSync(t, input, call, broken);
            if Judge(o) == Stored || o == Failure(Broken(AtHandlers)) || o == Failure(Broken(AtStatus))
            then DataVersion(t) == n && DataVersion(s) == n + 1 && IsChain(s.commands, n + 1)
                 && (t.data.Some? ==> n in s.history && SameButTtl(s.history[n], t.data.value))
            else s.data == t.data && (IsChain(s.commands, n) || (DataVersion(t) == n && IsChain(s.commands, n + 1)))
  {
    var base := SyncBase(t, input);
    if base.Success? && DataVersion(t) + 1 !in t.commands {
      var v := DataVersion(t) + 1;
      var updated := if t.data.Some? then FirstStamp(t.data.value.updated, call.stamp) else call.stamp;
      var cmd := NewCommand(input, v, call, updated);
      var stored := t.(commands := t.commands[v := Row(cmd, At(CommandModel.PublishSync, Phase.Started), None, true)]);
      assert v == n + 1 && IsChain(stored.commands, v);
      if broken.Some? {
        SyncUpToEffect(stored, cmd, call, broken.value, At(CommandModel.PublishSync, Failed));
      } else {
        SyncUpToEffect(stored, cmd, call, AtStatus, At(Finish, Phase.Finished));
      }
    }
  }
}
