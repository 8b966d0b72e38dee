/**
 What every step of the version protocol keeps when no new row starts with a copied `finish`
 status: a gapless chain of command rows, and data versions that rise by exactly one.
 */
module ProtocolSafety {
  import opened Wrappers
  import opened CommandModel
  import opened CommandProtocol

  // Before the point where an execution is allowed to touch the tables of its key.
  predicate BeforeGate(pc: Pc) {
    match pc
    case CvStart => true case CvData => true case CvPrev(_) => true case CvEnd(_) => true
    case Waiting => true
    case _ => false
  }

  predicate Passed(pc: Pc) {
    !BeforeGate(pc) && !pc.Stopped?
  }

  // What an execution of version `v` has a right to believe.
  predicate ExecOk(s: State, v: int, e: Exec) {
    && v in s.rows
    && (Applied(e.pc) <==> |s.data| >= v)
    && (Passed(e.pc) ==> |s.data| >= v - 1)
    && (e.wait.WtResume? ==> |s.data| >= v - 1)
    && (e.pc.CvPrev? ==> 1 <= e.pc.next <= |s.data| + 1)
    && (e.pc.CvEnd? ==> e.pc.result in {0, 1} && (e.pc.result == 0 ==> |s.data| >= v - 1) && (e.pc.result == 1 ==> v >= 2))
    && (e.pc.Waiting? ==> v >= 2)
    && (e.pc.TtlPut? ==> v - 1 in s.rows && e.pc.image in s.rows[v - 1])
    && (e.pc.HistPut? ==> e.pc.snapshot in s.data)
    && (e.pc.SyncPut? && e.pc.existing.Some? ==> e.pc.existing.value in s.data)
    && (e.pc.FinResume? ==> e.pc.waiter <= v + 1)
  }

  // A finish status appears on a row only once its data row is written, and a stored token
  // belongs to the row's own version or an earlier one.
  predicate RowOk(s: State, v: int, r: Row) {
    && r.command.version == v
    && (IsFinish(r.status) ==> |s.data| >= v)
    && (r.token.Some? ==> r.token.value <= v)
  }

  ghost predicate Chain(s: State) {
    && (forall k :: k in s.rows <==> 1 <= k <= |s.rows|)
    && (forall k :: k in s.rows ==> s.rows[k] != [])
  }

  ghost predicate DataInOrder(s: State) {
    && |s.data| <= |s.rows|
    && (forall i :: 0 <= i < |s.data| ==> s.data[i].version == i + 1)
  }

  ghost predicate RowsOk(s: State) {
    forall k, r :: k in s.rows && r in s.rows[k] ==> RowOk(s, k, r)
  }

  ghost predicate ExecsOk(s: State) {
    && (forall v :: v in s.execs ==> ExecOk(s, v, s.execs[v]))
    && (forall v :: v in s.rows && v !in s.execs ==> |s.data| < v)
    && (forall w :: w in s.resumed ==> w in s.execs && |s.data| >= w - 1)
  }

  ghost predicate Safe(s: State) {
    Chain(s) && DataInOrder(s) && RowsOk(s) && ExecsOk(s)
  }

  // ---------------------------------------------------------------- one lemma per request

  // Tables that only grew, with the same data row, keep every belief that is not about
  // the changed execution.
  ghost predicate Grew(s: State, t: State) {
    && s.data == t.data
    && s.rows.Keys <= t.rows.Keys
    && (forall k, r :: k in s.rows && r in s.rows[k] ==> r in t.rows[k])
  }

  lemma PutRowKeeps(s: State, k: int, row: Row)
    requires Safe(s) && k in s.rows && RowOk(s, k, row)
    ensures Safe(Perform(s, PutRow(k, row))) && Grew(s, Perform(s, PutRow(k, row)))
  {
    var t := Perform(s, PutRow(k, row));
    assert t.rows.Keys == s.rows.Keys;
    assert |t.rows| == |s.rows|;
    assert Grew(s, t);
  }

  lemma NewRowKeeps(s: State, k: int, row: Row)
    requires Safe(s) && k !in s.rows && 1 <= k && (k == 1 || k - 1 in s.rows) && RowOk(s, k, row)
    ensures Safe(Perform(s, PutRow(k, row))) && Grew(s, Perform(s, PutRow(k, row)))
    ensures k == |s.rows| + 1
  {
    var t := Perform(s, PutRow(k, row));
    NewRowExtends(s, k, row);
    forall j, r | j in t.rows && r in t.rows[j] ensures RowOk(t, j, r) {
      assert j != k ==> RowOk(s, j, r);
    }
    assert Grew(s, t);
    forall v | v in t.execs ensures ExecOk(t, v, t.execs[v]) {
      assert ExecOk(s, v, s.execs[v]);
    }
  }

  lemma NewRowExtends(s: State, k: int, row: Row)
    requires Chain(s) && k !in s.rows && 1 <= k && (k == 1 || k - 1 in s.rows)
    ensures var t := Perform(s, PutRow(k, row));
            && Chain(t) && k == |s.rows| + 1 && |t.rows| == k
            && t.rows[k] == [row] && forall j :: j in s.rows ==> t.rows[j] == s.rows[j]
  {
    var t := Perform(s, PutRow(k, row));
    NewKeyExtends(s, k);
    assert t.rows.Keys == s.rows.Keys + {k};
    assert |t.rows| == |s.rows| + 1;
  }

  lemma NewKeyExtends(s: State, k: int)
    requires Chain(s) && k !in s.rows && 1 <= k && (k == 1 || k - 1 in s.rows)
    ensures k == |s.rows| + 1
  {
  }

  lemma ReplaceExec(s: State, v: int, e: Exec)
    requires Safe(s) && ExecOk(s, v, e)
    ensures Safe(s.(execs := s.execs[v := e]))
  {
  }

  lemma StatusWriteKeeps(s: State, v: int, st: Status)
    requires Safe(s) && v in s.rows && (IsFinish(st) ==> |s.data| >= v)
    ensures RowLog(s, v) != []
    ensures Safe(Perform(s, StatusWrite(s, v, st))) && Grew(s, Perform(s, StatusWrite(s, v, st)))
  {
    assert Last(RowLog(s, v)) in s.rows[v];
    PutRowKeeps(s, v, Last(RowLog(s, v)).(status := st));
  }

  lemma ResumeKeeps(s: State, w: int)
    requires Safe(s) && |s.data| >= w - 1
    ensures Safe(Perform(s, SendTaskSuccess(w))) && Grew(s, Perform(s, SendTaskSuccess(w)))
  {
  }

  // The only step that lengthens the data log: it finds the data row at v - 1.
  lemma PutDataKeeps(s: State, v: int, existing: Option<DataRow>, e: Exec)
    requires Safe(s) && v in s.execs && s.execs[v].pc == SyncPut(existing)
    requires e.pc in {PsEnd, SyncEnd}
    ensures |s.data| == v - 1 && RowLog(s, v) != []
    ensures Safe(Perform(s, PutData(Project(RowLog(s, v)[0].command, existing))).(execs := s.execs[v := e]))
  {
    assert RowLog(s, v)[0] in s.rows[v];
    var t := Perform(s, PutData(Project(RowLog(s, v)[0].command, existing))).(execs := s.execs[v := e]);
    forall u | u in t.execs ensures ExecOk(t, u, t.execs[u]) {
      if u != v {
        assert ExecOk(s, u, s.execs[u]);
      }
    }
  }

  // ---------------------------------------------------------------- one lemma per action

  lemma ExecOkGrows(s: State, t: State, v: int, e: Exec)
    requires ExecOk(s, v, e) && Grew(s, t)
    ensures ExecOk(t, v, e)
  {
  }

  // What an execution believes after its own step, whatever the step wrote elsewhere.
  lemma NextExecOk(s: State, v: int, seen: nat, ok: bool)
    requires Safe(s) && CanAdvance(s, v, seen) && !s.execs[v].pc.SyncPut?
    ensures ExecOk(s, v, NextExec(s, v, seen, ok))
  {
    var pc := s.execs[v].pc;
    assert ExecOk(s, v, s.execs[v]);
    if pc.FinRead? {
      if RowLog(s, v + 1) != [] {
        assert Last(RowLog(s, v + 1)) in s.rows[v + 1];
        assert RowOk(s, v + 1, Last(RowLog(s, v + 1)));
      }
    } else if pc.CvData? {
      assert seen > 0 ==> s.data[seen - 1].version == seen;
    } else if pc.CvPrev? {
      assert pc.next <= v;
    }
  }

  lemma RequestKeeps(s: State, v: int, seen: nat, ok: bool, ttl: Option<int>)
    requires Safe(s) && CanAdvance(s, v, seen) && !s.execs[v].pc.SyncPut?
    ensures var t := Perform(s, NextRequest(s, v, seen, ok, ttl));
            Safe(t) && Grew(s, t) && t.execs == s.execs
  {
    assert ExecOk(s, v, s.execs[v]);
    var req := NextRequest(s, v, seen, ok, ttl);
    var pc := s.execs[v].pc;
    if OwnStatus(pc).Some? {
      StatusWriteKeeps(s, v, OwnStatus(pc).value);
    } else if pc.TtlPut? {
      assert RowOk(s, v - 1, pc.image);
      PutRowKeeps(s, v - 1, req.row);
    } else if pc.FinResume? {
      ResumeKeeps(s, pc.waiter);
    }
  }

  lemma AdvanceKeeps(s: State, v: int, seen: nat, ok: bool, ttl: Option<int>)
    requires Safe(s) && CanAdvance(s, v, seen)
    ensures Safe(Apply(s, Advance(v, seen, ok, ttl)))
  {
    var e := NextExec(s, v, seen, ok);
    if s.execs[v].pc.SyncPut? {
      PutDataKeeps(s, v, s.execs[v].pc.existing, e);
    } else {
      var t := Perform(s, NextRequest(s, v, seen, ok, ttl));
      RequestKeeps(s, v, seen, ok, ttl);
      NextExecOk(s, v, seen, ok);
      ExecOkGrows(s, t, v, e);
      ReplaceExec(t, v, e);
    }
  }

  lemma WaitRequestKeeps(s: State, v: int, ok: bool)
    requires Safe(s) && CanAdvanceWait(s, v)
    ensures var t := Perform(s, WaitRequest(s, v, ok));
            Safe(t) && Grew(s, t) && t.execs == s.execs
  {
    assert ExecOk(s, v, s.execs[v]);
    assert Last(RowLog(s, v)) in s.rows[v];
    var w := s.execs[v].wait;
    if w.WtToken? {
      PutRowKeeps(s, v, Last(RowLog(s, v)).(token := Some(v)));
    } else if w.WtResume? {
      ResumeKeeps(s, v);
    } else if w.WtStart? {
      StatusWriteKeeps(s, v, At(WaitPrevCommand, Started));
    } else if w.WtEnd? {
      StatusWriteKeeps(s, v, At(WaitPrevCommand, if ok then Finished else Failed));
    }
  }

  lemma WaitExecOk(s: State, v: int, ok: bool)
    requires Safe(s) && CanAdvanceWait(s, v)
    ensures ExecOk(s, v, WaitExec(s, v, ok))
  {
    assert ExecOk(s, v, s.execs[v]);
    if s.execs[v].wait.WtRead? && RowLog(s, v - 1) != [] {
      assert Last(RowLog(s, v - 1)) in s.rows[v - 1];
    }
  }

  lemma AdvanceWaitKeeps(s: State, v: int, ok: bool)
    requires Safe(s) && Enabled(s, AdvanceWait(v, ok))
    ensures Safe(Apply(s, AdvanceWait(v, ok)))
  {
    var e := WaitExec(s, v, ok);
    var t := Perform(s, WaitRequest(s, v, ok));
    WaitRequestKeeps(s, v, ok);
    WaitExecOk(s, v, ok);
    ExecOkGrows(s, t, v, e);
    ReplaceExec(t, v, e);
  }

  lemma FailKeeps(s: State, v: int, recorded: bool)
    requires Safe(s) && Enabled(s, Fail(v, recorded))
    ensures Safe(Apply(s, Fail(v, recorded)))
  {
    var e := StoppedExec(s.execs[v]);
    assert ExecOk(s, v, s.execs[v]);
    if recorded {
      StatusWriteKeeps(s, v, At(StepOf(s.execs[v]), Failed));
      ExecOkGrows(s, Perform(s, StatusWrite(s, v, At(StepOf(s.execs[v]), Failed))), v, e);
      ReplaceExec(Perform(s, StatusWrite(s, v, At(StepOf(s.execs[v]), Failed))), v, e);
    } else {
      ReplaceExec(s, v, e);
    }
  }

  lemma InsertKeeps(s: State, base: int, cmd: Command, origin: Origin)
    requires Safe(s) && Enabled(s, Insert(base, cmd, origin))
    requires origin.Copied? ==> !IsFinish(origin.image.status)
    ensures Safe(Apply(s, Insert(base, cmd, origin)))
  {
    if origin.Copied? {
      assert RowOk(s, base, origin.image);
    }
    NewRowKeeps(s, base + 1, NewRow(base, cmd, origin));
  }

  // A synchronous publish gets past its conditional put only when the data row is at the
  // end of the chain, however old the data row it read.
  lemma InsertSyncFindsNothingPending(s: State, seen: nat, cmd: Command)
    requires Safe(s) && Enabled(s, InsertSync(seen, cmd))
    ensures seen == |s.data| == |s.rows|
  {
    assert VersionSeen(s, seen) == seen;
    assert seen + 1 > |s.rows|;
  }

  lemma InsertSyncKeeps(s: State, seen: nat, cmd: Command)
    requires Safe(s) && Enabled(s, InsertSync(seen, cmd))
    ensures Safe(Apply(s, InsertSync(seen, cmd)))
  {
    InsertSyncFindsNothingPending(s, seen, cmd);
    var v := seen + 1;
    assert VersionSeen(s, seen) == seen;
    assert v == 1 || v - 1 in s.rows;
    var row := Row(cmd.(version := v), At(PublishSync, Started), None, true);
    var e := Exec(true, TtlRead, Idle, PullPending, PushPending);
    var t := Perform(s, PutRow(v, row));
    NewRowKeeps(s, v, row);
    assert ExecOk(t, v, e);
    ReplaceExec(t, v, e);
    assert Apply(s, InsertSync(seen, cmd)) == t.(execs := t.execs[v := e]);
  }

  lemma StepKeepsSafe(env: Env, s: State, a: Action)
    requires env.cleanCopies && Safe(s) && Enabled(s, a) && Admits(env, s, a)
    ensures Safe(Apply(s, a))
  {
    match a
    case Insert(base, cmd, origin) => InsertKeeps(s, base, cmd, origin);
    case InsertSync(seen, cmd) => InsertSyncKeeps(s, seen, cmd);
    case Start(v) => ReplaceExec(s, v, Exec(false, CvStart, Idle, PullPending, PushPending));
    case Advance(v, seen, ok, ttl) => AdvanceKeeps(s, v, seen, ok, ttl);
    case AdvanceWait(v, ok) => AdvanceWaitKeeps(s, v, ok);
    case Fail(v, recorded) => FailKeeps(s, v, recorded);
  }

  lemma {:induction false} RunKeepsSafe(env: Env, s: State, actions: seq<Action>)
    requires env.cleanCopies && Safe(s) && RunFrom(env, s, actions).Some?
    ensures Safe(RunFrom(env, s, actions).value)
    decreases |actions|
  {
    if actions != [] {
      StepKeepsSafe(env, s, actions[0]);
      RunKeepsSafe(env, Apply(s, actions[0]), actions[1..]);
    }
  }

  lemma ReachableSafe(env: Env, s: State)
    requires env.cleanCopies && Reachable(env, s)
    ensures Safe(s)
  {
    var actions :| RunFrom(env, Init, actions) == Some(s);
    RunKeepsSafe(env, Init, actions);
  }

  // ---------------------------------------------------------------- main results

  // Version chain: the stored versions of a base key are exactly 1..n, and the data row
  // never runs ahead of them.
  lemma VersionChain(env: Env, s: State)
    requires env.cleanCopies && Reachable(env, s)
    ensures forall k :: k in s.rows <==> 1 <= k <= |s.rows|
    ensures |s.data| <= |s.rows|
  {
    ReachableSafe(env, s);
  }

  // In-order application: whatever the interleaving, and however stale the eventually
  // consistent reads, the data row has held exactly the versions 1, 2, 3, ... in that order,
  // and an execution about to write version v finds the data row at v - 1.
  lemma InOrderApplication(env: Env, s: State)
    requires env.cleanCopies && Reachable(env, s)
    ensures forall i :: 0 <= i < |s.data| ==> s.data[i].version == i + 1
    ensures forall v :: v in s.execs && s.execs[v].pc.SyncPut? ==> |s.data| == v - 1
  {
    ReachableSafe(env, s);
    forall v | v in s.execs && s.execs[v].pc.SyncPut? ensures |s.data| == v - 1 {
      assert ExecOk(s, v, s.execs[v]);
    }
  }

  // The version check of an asynchronous command never reports a mismatch.
  lemma NoVersionMismatch(env: Env, s: State, v: int)
    requires env.cleanCopies && Reachable(env, s) && v in s.execs
    ensures s.execs[v].pc != CvEnd(-1)
  {
    ReachableSafe(env, s);
    assert ExecOk(s, v, s.execs[v]);
  }

  // A synchronous publish succeeds only when nothing is pending, even on a stale read.
  lemma SyncPublishNeedsIdleChain(env: Env, s: State, seen: nat, cmd: Command)
    requires env.cleanCopies && Reachable(env, s) && Enabled(s, InsertSync(seen, cmd))
    ensures |s.data| == |s.rows| == seen
  {
    ReachableSafe(env, s);
    InsertSyncFindsNothingPending(s, seen, cmd);
  }

  // updateTtl puts back a whole row, possibly an old image of it; while version v waits, no
  // such put is on its way to row v or to row v - 1.
  lemma TtlPutSparesWaiters(env: Env, s: State, u: int, v: int)
    requires env.cleanCopies && Reachable(env, s)
    requires u in s.execs && s.execs[u].pc.TtlPut?
    requires v in s.execs && s.execs[v].pc.Waiting?
    ensures u - 1 != v && u - 1 != v - 1
  {
    ReachableSafe(env, s);
    assert ExecOk(s, u, s.execs[u]) && ExecOk(s, v, s.execs[v]);
  }
}
