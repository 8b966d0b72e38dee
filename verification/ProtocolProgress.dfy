/**
 Progress of the version protocol when nothing fails and every command is asynchronous: the
 executions never block each other for good, and once publishing stops they apply the whole
 chain.
 */
module ProtocolProgress {
  import opened Wrappers
  import opened CommandModel
  import opened CommandProtocol
  import opened ProtocolSafety
  import opened ProtocolHandshake
  import opened ProtocolAudit

  // Nothing fails, and all commands are asynchronous; reads of the data row may be stale.
  predicate CalmEnv(env: Env) {
    env.cleanCopies && env.settledWaits && env.reliable && env.asyncOnly
  }

  predicate CalmExec(e: Exec) {
    !e.sync && !e.pc.Stopped? && !e.push.PushFailed? && !e.pull.PullFailed?
  }

  ghost predicate Calm(s: State) {
    && Handshake(s, {})
    && (forall v :: v in s.execs ==> CalmExec(s.execs[v]))
    && (forall k, r :: k in s.rows && r in s.rows[k] ==> !r.sync)
  }

  predicate IsPublish(a: Action) {
    a.Insert? || a.InsertSync?
  }

  predicate Complete(s: State, v: int) {
    v in s.execs && s.execs[v].pc.Done? && s.execs[v].wait in {Idle, WtDone}
  }

  ghost predicate AllComplete(s: State) {
    forall v :: v in s.rows ==> Complete(s, v)
  }

  // ---------------------------------------------------------------- calm runs stay calm

  lemma AdvanceKeepsRowsAsync(s: State, v: int, seen: nat, ok: bool, ttl: Option<int>)
    requires Calm(s) && CanAdvance(s, v, seen)
    ensures var t := Apply(s, Advance(v, seen, ok, ttl));
            forall k, r :: k in t.rows && r in t.rows[k] ==> !r.sync
  {
    var t := Apply(s, Advance(v, seen, ok, ttl));
    var req := NextRequest(s, v, seen, ok, ttl);
    assert ExecOk(s, v, s.execs[v]);
    assert Last(RowLog(s, v)) in s.rows[v];
    assert req.PutRow? ==> !req.row.sync;
  }

  lemma AdvanceStaysCalm(s: State, v: int, seen: nat)
    requires Calm(s) && CanAdvance(s, v, seen)
    ensures CalmExec(NextExec(s, v, seen, true))
  {
    assert ExecOk(s, v, s.execs[v]);
  }

  lemma StepKeepsCalm(env: Env, s: State, a: Action)
    requires CalmEnv(env) && Calm(s) && Enabled(s, a) && Admits(env, s, a)
    ensures Calm(Apply(s, a))
  {
    StepKeepsHandshake(env, s, a, {});
    StepKeepsAsync(env, s, a);
  }

  lemma StepKeepsAsync(env: Env, s: State, a: Action)
    requires CalmEnv(env) && Calm(s) && Enabled(s, a) && Admits(env, s, a)
    ensures var t := Apply(s, a);
            && (forall v :: v in t.execs ==> CalmExec(t.execs[v]))
            && (forall k, r :: k in t.rows && r in t.rows[k] ==> !r.sync)
  {
    if a.Advance? {
      AdvanceKeepsRowsAsync(s, a.version, a.seen, a.ok, a.ttl);
      AdvanceStaysCalm(s, a.version, a.seen);
    } else if a.AdvanceWait? {
      assert Last(RowLog(s, a.version)) in s.rows[a.version];
    }
  }

  lemma {:induction false} RunKeepsCalm(env: Env, s: State, actions: seq<Action>)
    requires CalmEnv(env) && Calm(s) && RunFrom(env, s, actions).Some?
    ensures Calm(RunFrom(env, s, actions).value)
    decreases |actions|
  {
    if actions != [] {
      StepKeepsCalm(env, s, actions[0]);
      RunKeepsCalm(env, Apply(s, actions[0]), actions[1..]);
    }
  }

  lemma ReachableCalm(env: Env, s: State)
    requires CalmEnv(env) && Reachable(env, s)
    ensures Calm(s)
  {
    var actions :| RunFrom(env, Init, actions) == Some(s);
    RunKeepsCalm(env, Init, actions);
  }

  // ---------------------------------------------------------------- a measure

  function PcRank(pc: Pc): nat {
    match pc
    case CvStart => 40 case CvData => 39 case CvPrev(_) => 38 case CvEnd(_) => 37
    case Waiting => 25
    case TtlStart => 24 case TtlRead => 23 case TtlPut(_) => 22 case TtlEnd => 21
    case HistStart => 20 case HistRead => 19 case HistPut(_) => 18 case HistEnd => 17
    case TransStart => 16 case TransEnd => 15
    case SyncStart => 14 case SyncRead => 13 case SyncPut(_) => 12 case SyncEnd => 11
    case FinStart => 10 case FinRead => 9 case FinResume(_) => 8 case FinEnd => 7 case PsEnd => 7
    case Done => 0
    case Stopped(_) => 0
  }

  function WaitRank(w: WaitPc): nat {
    match w
    case WtStart => 5 case WtToken => 4 case WtRead => 3 case WtResume => 2 case WtEnd => 1
    case Idle => 0
    case WtDone => 0
  }

  function Remaining(s: State, v: int): nat {
    if v in s.execs then PcRank(s.execs[v].pc) + WaitRank(s.execs[v].wait) else 41
  }

  function WorkUpTo(s: State, n: nat): nat {
    if n == 0 then 0 else WorkUpTo(s, n - 1) + Remaining(s, n)
  }

  // The requests still to be made for the versions stored so far, at most.
  function Work(s: State): nat {
    WorkUpTo(s, |s.rows|)
  }

  lemma {:induction false} OneChanges(s: State, t: State, v: int, n: nat)
    requires forall k :: k != v ==> Remaining(t, k) == Remaining(s, k)
    ensures WorkUpTo(t, n) == WorkUpTo(s, n) + if 1 <= v <= n then Remaining(t, v) - Remaining(s, v) else 0
  {
    if n > 0 {
      OneChanges(s, t, v, n - 1);
    }
  }

  lemma AdvanceShrinks(s: State, v: int, seen: nat)
    requires Calm(s) && CanAdvance(s, v, seen)
    ensures PcRank(NextExec(s, v, seen, true).pc) + WaitRank(NextExec(s, v, seen, true).wait)
            < PcRank(s.execs[v].pc) + WaitRank(s.execs[v].wait)
  {
    assert ExecOk(s, v, s.execs[v]) && Linked(s, v, {});
  }

  lemma RowCountStays(s: State, a: Action)
    requires Calm(s) && Enabled(s, a) && !IsPublish(a)
    ensures |Apply(s, a).rows| == |s.rows|
  {
    if a.Advance? {
      AdvanceWrites(s, a.version, a.seen, a.ok, a.ttl);
    }
    assert Apply(s, a).rows.Keys == s.rows.Keys;
  }

  // Every request of a calm run uses up work; only publishing adds any.
  lemma StepsShrinkWork(env: Env, s: State, a: Action)
    requires CalmEnv(env) && Calm(s) && Enabled(s, a) && Admits(env, s, a) && !IsPublish(a)
    ensures Work(Apply(s, a)) < Work(s)
  {
    RowCountStays(s, a);
    OwnWorkShrinks(env, s, a);
    OneChanges(s, Apply(s, a), a.version, |s.rows|);
  }

  lemma OwnWorkShrinks(env: Env, s: State, a: Action)
    requires CalmEnv(env) && Calm(s) && Enabled(s, a) && Admits(env, s, a) && !IsPublish(a)
    ensures 1 <= a.version <= |s.rows|
    ensures Remaining(Apply(s, a), a.version) < Remaining(s, a.version)
    ensures forall k :: k != a.version ==> Remaining(Apply(s, a), k) == Remaining(s, k)
  {
    var v := a.version;
    if v in s.execs {
      assert ExecOk(s, v, s.execs[v]);
    }
    if a.Advance? {
      AdvanceShrinks(s, v, a.seen);
    }
  }

  // ---------------------------------------------------------------- no deadlock

  lemma {:induction false} FirstUnfinished(s: State, n: nat) returns (v: int)
    requires exists k :: 1 <= k <= n && !Complete(s, k)
    ensures 1 <= v <= n && !Complete(s, v)
    ensures forall k :: 1 <= k < v ==> Complete(s, k)
  {
    if exists k :: 1 <= k <= n - 1 && !Complete(s, k) {
      v := FirstUnfinished(s, n - 1);
    } else {
      v := n;
    }
  }

  // Behind a finished predecessor a version whose wait function is through has been resumed.
  lemma WaiterIsWoken(s: State, v: int)
    requires Calm(s) && v in s.execs && v - 1 in s.execs && Complete(s, v - 1)
    requires s.execs[v].pc.Waiting? && s.execs[v].wait in {Idle, WtDone}
    ensures v in s.resumed
  {
    assert Linked(s, v, {}) && CalmExec(s.execs[v]) && CalmExec(s.execs[v - 1]);
    if v !in s.resumed {
      StrandedNeedsFailure(s, v - 1, {});
    }
  }

  // A version whose predecessors are all finished can always make its next request.
  lemma NextStep(env: Env, s: State, v: int) returns (a: Action)
    requires CalmEnv(env) && Calm(s) && v in s.rows && !Complete(s, v)
    requires forall k :: 1 <= k < v ==> Complete(s, k)
    ensures Enabled(s, a) && Admits(env, s, a) && !IsPublish(a)
  {
    a := Start(v);
    if v !in s.execs {
      assert s.rows[v] != [] && s.rows[v][0] in s.rows[v];
    } else {
      assert Linked(s, v, {}) && ExecOk(s, v, s.execs[v]) && CalmExec(s.execs[v]);
      var e := s.execs[v];
      if e.wait !in {Idle, WtDone} && (e.pc.Done? || e.pc.FinStart? || (e.pc.Waiting? && v !in s.resumed)) {
        a := AdvanceWait(v, true);
      } else {
        if e.pc.Waiting? {
          assert Complete(s, v - 1);
          if e.wait in {Idle, WtDone} {
            WaiterIsWoken(s, v);
          }
        }
        a := Advance(v, if e.pc.TtlRead? then |RowLog(s, v - 1)| else |s.data|, true, None);
      }
    }
  }

  // Deadlock freedom: unless every version is finished, some request can be made.
  lemma NoDeadlock(env: Env, s: State) returns (a: Action)
    requires CalmEnv(env) && Reachable(env, s) && !AllComplete(s)
    ensures Enabled(s, a) && Admits(env, s, a) && !IsPublish(a)
  {
    ReachableCalm(env, s);
    var v := FirstUnfinished(s, |s.rows|);
    a := NextStep(env, s, v);
  }

  // When no request is left to make, every stored version has been applied in order; with
  // current reads of history_copy history holds all versions but the last, and with current
  // reads of sync_data the data row is the fold of the whole chain.
  lemma QuiescentMeansApplied(env: Env, s: State)
    requires CalmEnv(env) && Reachable(env, s)
    requires forall a :: Enabled(s, a) && Admits(env, s, a) ==> IsPublish(a)
    ensures |s.data| == |s.rows|
    ensures forall k :: 1 <= k <= |s.rows| ==> Inserted(s, k).Some? && s.data[k - 1].version == k
    ensures env.currentSyncs ==> Before(s.data, |s.data|) == Fold(ChainOf(s, |s.rows|))
    ensures env.currentCopies ==> forall k :: k in s.history <==> 1 <= k < |s.rows|
    ensures forall k :: k in s.history ==> 1 <= k < |s.rows| && SameButTtl(s.history[k], s.data[k - 1])
  {
    ReachableCalm(env, s);
    if !AllComplete(s) {
      var a := NoDeadlock(env, s);
      assert false;
    }
    if |s.rows| > 0 {
      assert Complete(s, |s.rows|) && ExecOk(s, |s.rows|, s.execs[|s.rows|]);
    }
    HistoryNeverLies(env, s);
    if env.currentCopies {
      AuditComplete(env, s);
    }
    if env.currentSyncs {
      DataIsFoldOfChain(env, s, |s.rows|);
    }
  }

  // From every state of a calm run there is a way to finish all stored versions without
  // publishing anything more.
  lemma {:induction false} Drains(env: Env, s: State) returns (actions: seq<Action>)
    requires CalmEnv(env) && Calm(s)
    ensures RunFrom(env, s, actions).Some? && AllComplete(RunFrom(env, s, actions).value)
    ensures forall a :: a in actions ==> !IsPublish(a)
    ensures |actions| <= Work(s)
    decreases Work(s)
  {
    if AllComplete(s) {
      actions := [];
    } else {
      var v := FirstUnfinished(s, |s.rows|);
      var a := NextStep(env, s, v);
      StepKeepsCalm(env, s, a);
      StepsShrinkWork(env, s, a);
      var rest := Drains(env, Apply(s, a));
      actions := [a] + rest;
      assert actions[1..] == rest;
    }
  }
}
