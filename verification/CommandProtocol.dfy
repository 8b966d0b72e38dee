/**
 The version protocol of one base key: command rows, the data row, history rows, and every
 Step Functions execution and publishSync call at work on them at the same time.

 Each step of the machine is one request to DynamoDB or Step Functions, so every
 interleaving of requests is a run. A table row is the log of the values it has held: a
 consistent read returns the last one, an eventually consistent read may return any earlier
 one, or nothing.
 */
module CommandProtocol {
  import opened Wrappers
  import opened CommandModel

  // Where the execution of a command, or the publishSync call that wrote it, stands: the
  // next request it will make, with the values it has read and still needs.
  datatype Pc =
    // check_version
    | CvStart | CvData | CvPrev(next: int) | CvEnd(result: int)
    // wait_prev_command: the execution is suspended until its task token is resumed
    | Waiting
    // set_ttl_command
    | TtlStart | TtlRead | TtlPut(image: Row) | TtlEnd
    // history_copy
    | HistStart | HistRead | HistPut(snapshot: DataRow) | HistEnd
    // transform_data
    | TransStart | TransEnd
    // sync_data, with the default handler
    | SyncStart | SyncRead | SyncPut(existing: Option<DataRow>) | SyncEnd
    // finish
    | FinStart | FinRead | FinResume(waiter: int) | FinEnd
    // the last status write of publishSync
    | PsEnd
    | Done
    | Stopped(applied: bool)

  // The function behind wait_prev_command. It runs beside the suspended execution, which
  // may be resumed before the function has written its last status.
  datatype WaitPc = Idle | WtStart | WtToken | WtRead | WtResume | WtEnd | WtDone

  // What the waiting side learnt about its predecessor.
  datatype Pull = PullPending | PullEarly | PullResumed | PullFailed

  // What the finishing side did for its successor.
  datatype Push = PushPending | PushNothing | PushSent(waiter: int) | PushFailed

  datatype Exec = Exec(sync: bool, pc: Pc, wait: WaitPc, pull: Pull, push: Push)

  datatype State = State(
    rows: map<int, seq<Row>>,
    data: seq<DataRow>,
    history: map<int, DataRow>,
    execs: map<int, Exec>,
    resumed: set<int>)

  const Init: State := State(map[], [], map[], map[], {})

  // The one request a step makes.
  datatype Request =
    | NoWrite
    | PutRow(key: int, row: Row)
    | PutData(dataRow: DataRow)
    | PutHistory(key: int, historyRow: DataRow)
    | SendTaskSuccess(waiter: int)

  // Where a new command row gets its status and task token from: publishAsync writes
  // neither; publishPartialUpdateAsync and duplicate copy what they read from the base row.
  // duplicate copies the syncMode marker too.
  datatype Origin = Fresh | Copied(image: Row, duplicated: bool)

  // `seen` is how many values of the row an eventually consistent read has caught up with;
  // `ok` says whether a request that the code tolerates to fail went through; `ttl` is
  // whatever the TTL service computed.
  datatype Action =
    | Insert(base: int, cmd: Command, origin: Origin)
    | InsertSync(seen: nat, cmd: Command)
    | Start(version: int)
    | Advance(version: int, seen: nat, ok: bool, ttl: Option<int>)
    | AdvanceWait(version: int, ok: bool)
    | Fail(version: int, recorded: bool)

  // ---------------------------------------------------------------- reads and writes

  function Last<T>(log: seq<T>): T
    requires log != []
  {
    log[|log| - 1]
  }

  function Seen<T>(log: seq<T>, seen: nat): Option<T>
    requires seen <= |log|
  {
    if seen == 0 then None else Some(log[seen - 1])
  }

  function RowLog(s: State, v: int): seq<Row> {
    if v in s.rows then s.rows[v] else []
  }

  function Perform(s: State, req: Request): State {
    match req
    case NoWrite => s
    case PutRow(k, row) => s.(rows := s.rows[k := RowLog(s, k) + [row]])
    case PutData(row) => s.(data := s.data + [row])
    case PutHistory(k, row) => s.(history := s.history[k := row])
    case SendTaskSuccess(w) =>
      // A token whose wait task is over raises TaskDoesNotExist, which the code ignores.
      if w in s.execs && s.execs[w].pc.Waiting? then s.(resumed := s.resumed + {w}) else s
  }

  // updateItem with a new status; every other attribute of the row stays.
  function StatusWrite(s: State, v: int, st: Status): Request
    requires RowLog(s, v) != []
  {
    PutRow(v, Last(RowLog(s, v)).(status := st))
  }

  // ---------------------------------------------------------------- one execution

  // The status that an execution at `pc` is about to write on its own row, if any.
  function OwnStatus(pc: Pc): Option<Status> {
    match pc
    case CvStart => Some(At(CheckVersion, Started))
    case CvEnd(_) => Some(At(CheckVersion, Finished))
    case TtlStart => Some(At(SetTtlCommand, Started))
    case TtlEnd => Some(At(SetTtlCommand, Finished))
    case HistStart => Some(At(HistoryCopy, Started))
    case HistEnd => Some(At(HistoryCopy, Finished))
    case TransStart => Some(At(TransformData, Started))
    case TransEnd => Some(At(TransformData, Finished))
    case SyncStart => Some(At(SyncData, Started))
    case SyncEnd => Some(At(SyncData, Finished))
    case FinStart => Some(At(Finish, Started))
    case FinEnd => Some(At(Finish, Finished))
    case PsEnd => Some(At(Finish, Finished))
    case _ => None
  }

  // The request that execution `v` makes next.
  function NextRequest(s: State, v: int, seen: nat, ok: bool, ttl: Option<int>): Request
    requires v in s.execs && RowLog(s, v) != []
  {
    var pc := s.execs[v].pc;
    if OwnStatus(pc).Some? then StatusWrite(s, v, OwnStatus(pc).value)
    else if pc.TtlPut? then PutRow(v - 1, pc.image.(command := pc.image.command.(ttl := ttl)))
    else if pc.HistPut? then PutHistory(pc.snapshot.version, pc.snapshot.(ttl := ttl))
    // sync_data works on the row image of the stream record, which is the inserted one
    else if pc.SyncPut? then PutData(Project(RowLog(s, v)[0].command, pc.existing))
    else if pc.FinResume? && ok then SendTaskSuccess(pc.waiter)
    else NoWrite
  }

  function VersionSeen(s: State, seen: nat): int
    requires seen <= |s.data|
  {
    if seen == 0 then 0 else s.data[seen - 1].version
  }

  // checkVersion's verdict: 0 goes on, 1 waits for the predecessor, -1 fails.
  function Verdict(s: State, v: int, next: int): int {
    if next == v then 0
    else if next < v then (if v - 1 in s.rows then 1 else 0)
    else -1
  }

  // The state of execution `v` after that request. publishSync makes the same requests
  // without the status writes in between.
  function NextExec(s: State, v: int, seen: nat, ok: bool): Exec
    requires v in s.execs
    requires s.execs[v].pc.TtlRead? ==> seen <= |RowLog(s, v - 1)|
    requires s.execs[v].pc in {CvData, HistRead, SyncRead} ==> seen <= |s.data|
  {
    var e := s.execs[v];
    match e.pc
    case CvStart => e.(pc := CvData)
    case CvData => e.(pc := CvPrev(1 + VersionSeen(s, seen)))
    case CvPrev(next) => e.(pc := CvEnd(Verdict(s, v, next)))
    case CvEnd(result) =>
      if result == 0 then e.(pc := TtlStart)
      else if result == 1 then e.(pc := Waiting, wait := WtStart)
      else e.(pc := Stopped(false))
    case Waiting => e.(pc := TtlStart)
    case TtlStart => e.(pc := TtlRead)
    case TtlRead =>
      var image := if v <= 1 then None else Seen(RowLog(s, v - 1), seen);
      e.(pc := if image.Some? then TtlPut(image.value) else if e.sync then HistRead else TtlEnd)
    case TtlPut(_) => e.(pc := if e.sync then HistRead else TtlEnd)
    case TtlEnd => e.(pc := HistStart)
    case HistStart => e.(pc := HistRead)
    case HistRead =>
      var found := Seen(s.data, seen);
      e.(pc := if found.Some? then HistPut(found.value) else if e.sync then SyncRead else HistEnd)
    case HistPut(_) => e.(pc := if e.sync then SyncRead else HistEnd)
    case HistEnd => e.(pc := TransStart)
    case TransStart => e.(pc := TransEnd)
    case TransEnd => e.(pc := SyncStart)
    case SyncStart => e.(pc := SyncRead)
    case SyncRead => e.(pc := SyncPut(Seen(s.data, seen)))
    case SyncPut(_) => e.(pc := if e.sync then PsEnd else SyncEnd)
    case SyncEnd => e.(pc := FinStart)
    case FinStart => e.(pc := FinRead)
    case FinRead =>
      // getNextCommand reads consistently; after three failed attempts the push is skipped
      if !ok then e.(pc := FinEnd, push := PushFailed)
      else if RowLog(s, v + 1) == [] || Last(RowLog(s, v + 1)).token.None? then e.(pc := FinEnd, push := PushNothing)
      else e.(pc := FinResume(Last(RowLog(s, v + 1)).token.value))
    case FinResume(w) => e.(pc := FinEnd, push := if ok then PushSent(w) else PushFailed)
    case FinEnd => e.(pc := Done)
    case PsEnd => e.(pc := Done)
    case Done => e
    case Stopped(_) => e
  }

  predicate CanAdvance(s: State, v: int, seen: nat) {
    && v in s.execs && RowLog(s, v) != []
    && !s.execs[v].pc.Done? && !s.execs[v].pc.Stopped?
    && (s.execs[v].pc.Waiting? ==> v in s.resumed)
    && (s.execs[v].pc.TtlRead? ==> seen <= |RowLog(s, v - 1)|)
    && (s.execs[v].pc in {CvData, HistRead, SyncRead} ==> seen <= |s.data|)
  }

  // ---------------------------------------------------------------- the wait function

  function WaitRequest(s: State, v: int, ok: bool): Request
    requires v in s.execs && RowLog(s, v) != []
  {
    match s.execs[v].wait
    case WtStart => StatusWrite(s, v, At(WaitPrevCommand, Started))
    case WtToken => PutRow(v, Last(RowLog(s, v)).(token := Some(v)))
    case WtResume => if ok then SendTaskSuccess(v) else NoWrite
    // a last status write that fails is followed by one of `failed`; the execution, resumed
    // before, goes on
    case WtEnd => StatusWrite(s, v, At(WaitPrevCommand, if ok then Finished else Failed))
    case _ => NoWrite
  }

  function WaitExec(s: State, v: int, ok: bool): Exec
    requires v in s.execs
  {
    var e := s.execs[v];
    match e.wait
    case WtStart => e.(wait := WtToken)
    case WtToken => e.(wait := if v > 1 then WtRead else WtEnd)
    case WtRead =>
      if !ok then e.(wait := WtEnd, pull := PullFailed)
      else if RowLog(s, v - 1) != [] && IsFinish(Last(RowLog(s, v - 1)).status) then e.(wait := WtResume)
      else e.(wait := WtEnd, pull := PullEarly)
    case WtResume => e.(wait := WtEnd, pull := if ok then PullResumed else PullFailed)
    case WtEnd => e.(wait := WtDone)
    case Idle => e
    case WtDone => e
  }

  predicate CanAdvanceWait(s: State, v: int) {
    && v in s.execs && RowLog(s, v) != []
    && !s.execs[v].wait.Idle? && !s.execs[v].wait.WtDone?
  }

  // ---------------------------------------------------------------- all steps

  // The row a publish writes under version base + 1.
  function NewRow(base: int, cmd: Command, origin: Origin): Row {
    var c := cmd.(version := base + 1);
    match origin
    case Fresh => Row(c, Unset, None, false)
    case Copied(image, duplicated) => Row(c, image.status, image.token, duplicated && image.sync)
  }

  predicate Enabled(s: State, a: Action) {
    match a
    case Insert(base, _, origin) =>
      // the caller has seen version `base` (rows are never removed, so any read will do),
      // and the put is conditional on version base + 1 being absent
      && (base == 0 || base in s.rows) && base + 1 !in s.rows
      && (origin.Copied? ==> origin.image in RowLog(s, base))
    case InsertSync(seen, _) => seen <= |s.data| && VersionSeen(s, seen) + 1 !in s.rows
    case Start(v) => v in s.rows && v !in s.execs && s.rows[v] != [] && !s.rows[v][0].sync
    case Advance(v, seen, _, _) => CanAdvance(s, v, seen)
    case AdvanceWait(v, ok) =>
      // a wait function that fails before the execution is resumed fails the execution: see Fail
      CanAdvanceWait(s, v) && (s.execs[v].wait.WtEnd? && !ok ==> !s.execs[v].pc.Waiting? || v in s.resumed)
    case Fail(v, _) => v in s.execs && RowLog(s, v) != [] && !s.execs[v].pc.Done? && !s.execs[v].pc.Stopped?
  }

  // The step whose name prefixes the status of an execution at `pc`.
  function StepOf(e: Exec): StepName {
    if e.sync then PublishSync
    else match e.pc
         case CvStart => CheckVersion case CvData => CheckVersion
         case CvPrev(_) => CheckVersion case CvEnd(_) => CheckVersion
         case Waiting => WaitPrevCommand
         case TtlStart => SetTtlCommand case TtlRead => SetTtlCommand
         case TtlPut(_) => SetTtlCommand case TtlEnd => SetTtlCommand
         case HistStart => HistoryCopy case HistRead => HistoryCopy
         case HistPut(_) => HistoryCopy case HistEnd => HistoryCopy
         case TransStart => TransformData case TransEnd => TransformData
         case SyncStart => SyncData case SyncRead => SyncData
         case SyncPut(_) => SyncData case SyncEnd => SyncData
         case _ => Finish
  }

  // The data row of this version has been written.
  predicate Applied(pc: Pc) {
    match pc
    case SyncEnd => true case FinStart => true case FinRead => true
    case FinResume(_) => true case FinEnd => true case PsEnd => true case Done => true
    case Stopped(applied) => applied
    case _ => false
  }

  function StoppedExec(e: Exec): Exec {
    e.(pc := Stopped(Applied(e.pc)), wait := if e.wait.Idle? then Idle else WtDone)
  }

  function Apply(s: State, a: Action): State
    requires Enabled(s, a)
  {
    match a
    case Insert(base, cmd, origin) => Perform(s, PutRow(base + 1, NewRow(base, cmd, origin)))
    case InsertSync(seen, cmd) =>
      var v := VersionSeen(s, seen) + 1;
      var row := Row(cmd.(version := v), At(PublishSync, Started), None, true);
      Perform(s, PutRow(v, row)).(execs := s.execs[v := Exec(true, TtlRead, Idle, PullPending, PushPending)])
    case Start(v) => s.(execs := s.execs[v := Exec(false, CvStart, Idle, PullPending, PushPending)])
    case Advance(v, seen, ok, ttl) =>
      var e := NextExec(s, v, seen, ok);
      Perform(s, NextRequest(s, v, seen, ok, ttl)).(execs := s.execs[v := e])
    case AdvanceWait(v, ok) =>
      var e := WaitExec(s, v, ok);
      Perform(s, WaitRequest(s, v, ok)).(execs := s.execs[v := e])
    case Fail(v, recorded) =>
      var e := StoppedExec(s.execs[v]);
      var req := if recorded then StatusWrite(s, v, At(StepOf(s.execs[v]), Failed)) else NoWrite;
      Perform(s, req).(execs := s.execs[v := e])
  }

  // ---------------------------------------------------------------- runs

  /** What a run is allowed to do.
   cleanCopies: no new command row starts with a copied `finish` status.
   settledWaits: the wait function's last status write lands before `finish` starts.
   currentCopies: history_copy reads the current data row.
   currentSyncs: sync_data reads the current data row.
   reliable: no execution fails and no tolerated request fails.
   asyncOnly: no publishSync call, and no copied syncMode marker. */
  datatype Env = Env(
    cleanCopies: bool, settledWaits: bool, currentCopies: bool, currentSyncs: bool, reliable: bool, asyncOnly: bool)

  predicate Admits(env: Env, s: State, a: Action) {
    && (env.cleanCopies && a.Insert? && a.origin.Copied? ==> !IsFinish(a.origin.image.status))
    && (env.settledWaits && a.Advance? && a.version in s.execs && s.execs[a.version].pc.FinStart?
        ==> s.execs[a.version].wait in {Idle, WtDone})
    && (env.currentCopies && a.Advance? && a.version in s.execs && s.execs[a.version].pc.HistRead? ==> a.seen == |s.data|)
    && (env.currentSyncs && a.Advance? && a.version in s.execs && s.execs[a.version].pc.SyncRead? ==> a.seen == |s.data|)
    && (env.reliable ==> !a.Fail? && (a.Advance? ==> a.ok) && (a.AdvanceWait? ==> a.ok))
    && (env.asyncOnly ==> !a.InsertSync? && (a.Insert? && a.origin.Copied? ==> !a.origin.image.sync))
  }

  // The state after a run of actions from `s`, if every action was possible and allowed.
  function RunFrom(env: Env, s: State, actions: seq<Action>): Option<State>
    decreases |actions|
  {
    if actions == [] then Some(s)
    else if Enabled(s, actions[0]) && Admits(env, s, actions[0])
    then RunFrom(env, Apply(s, actions[0]), actions[1..])
    else None
  }

  ghost predicate Reachable(env: Env, s: State) {
    exists actions :: RunFrom(env, Init, actions) == Some(s)
  }

  lemma {:induction false} RunConcat(env: Env, s: State, front: seq<Action>, back: seq<Action>)
    requires RunFrom(env, s, front).Some?
    ensures RunFrom(env, s, front + back) == RunFrom(env, RunFrom(env, s, front).value, back)
    decreases |front|
  {
    if front == [] {
      assert front + back == back;
    } else {
      assert (front + back)[1..] == front[1..] + back;
      RunConcat(env, Apply(s, front[0]), front[1..], back);
    }
  }
}
