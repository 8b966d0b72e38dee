/**
 What the data row and the history table hold in the version protocol: the data row is the
 fold of the inserted commands, and history keeps every data row that was superseded.
 */
module ProtocolAudit {
  import opened Wrappers
  import opened CommandModel
  import opened CommandProtocol
  import opened ProtocolSafety

  // The command that version v was inserted with, which is the image in the stream record.
  function Inserted(s: State, v: int): Option<Command> {
    if RowLog(s, v) == [] then None else Some(RowLog(s, v)[0].command)
  }

  function Before(data: seq<DataRow>, i: nat): Option<DataRow>
    requires i <= |data|
  {
    if i == 0 then None else Some(data[i - 1])
  }

  // History rows are true copies of data rows, and only of superseded ones or the one that
  // an existing successor is about to supersede.
  ghost predicate HistorySound(s: State) {
    forall k :: k in s.history ==>
      1 <= k <= |s.data| && k < |s.rows| && SameButTtl(s.history[k], s.data[k - 1])
  }

  predicate ProjectedAt(s: State, k: int) {
    && 1 <= k <= |s.data| && Inserted(s, k).Some?
    && s.data[k - 1] == Project(Inserted(s, k).value, Before(s.data, k - 1))
  }

  ghost predicate DataIsProjected(s: State) {
    forall k :: 1 <= k <= |s.data| ==> ProjectedAt(s, k)
  }

  // Between history_copy and the write of the data row.
  predicate PastCopy(e: Exec) {
    || e.pc.HistEnd? || e.pc.TransStart? || e.pc.TransEnd? || e.pc.SyncStart?
    || e.pc.SyncRead? || e.pc.SyncPut?
  }

  // What execution v holds and has done, if history_copy reads the current row.
  predicate CopiesCurrent(s: State, v: int, e: Exec) {
    && (e.pc.HistPut? ==> 0 < |s.data| && e.pc.snapshot == s.data[|s.data| - 1])
    && (PastCopy(e) && v >= 2 ==> v - 1 in s.history)
  }

  ghost predicate Audited(s: State) {
    && Safe(s) && HistoryComplete(s)
    && forall v :: v in s.execs ==> CopiesCurrent(s, v, s.execs[v])
  }

  ghost predicate HistoryComplete(s: State) {
    forall k :: 1 <= k < |s.data| ==> k in s.history
  }

  // And if sync_data does.
  predicate SyncsCurrent(s: State, e: Exec) {
    e.pc.SyncPut? ==> e.pc.existing == Before(s.data, |s.data|)
  }

  ghost predicate Projected(s: State) {
    && Safe(s) && DataIsProjected(s)
    && forall v :: v in s.execs ==> SyncsCurrent(s, s.execs[v])
  }

  // ---------------------------------------------------------------- steps

  lemma AdvanceKeepsHistorySound(s: State, v: int, seen: nat, ok: bool, ttl: Option<int>)
    requires Safe(s) && HistorySound(s) && CanAdvance(s, v, seen)
    ensures HistorySound(Apply(s, Advance(v, seen, ok, ttl)))
  {
    assert ExecOk(s, v, s.execs[v]);
    AdvanceKeeps(s, v, seen, ok, ttl);
    if s.execs[v].pc.HistPut? {
      assert s.execs[v].pc.snapshot in s.data;
    }
  }

  lemma StepKeepsHistorySound(env: Env, s: State, a: Action)
    requires env.cleanCopies && Safe(s) && HistorySound(s) && Enabled(s, a) && Admits(env, s, a)
    ensures HistorySound(Apply(s, a))
  {
    StepKeepsSafe(env, s, a);
    if a.Advance? {
      AdvanceKeepsHistorySound(s, a.version, a.seen, a.ok, a.ttl);
    }
  }

  // What a step of execution v does to the tables that matter for the audit.
  ghost predicate Effect(s: State, t: State, v: int, e: Exec)
    requires v in s.execs
  {
    var pc := s.execs[v].pc;
    && t.execs == s.execs[v := e]
    && (forall k :: k in s.rows ==> Inserted(t, k) == Inserted(s, k) && Inserted(s, k).Some?)
    && (if pc.SyncPut? then Inserted(s, v).Some? && t.data == s.data + [Project(Inserted(s, v).value, pc.existing)]
        else t.data == s.data)
    && (if pc.HistPut? then exists ttl :: t.history == s.history[pc.snapshot.version := pc.snapshot.(ttl := ttl)]
        else t.history == s.history)
  }

  lemma AdvanceEffect(s: State, v: int, seen: nat, ok: bool, ttl: Option<int>)
    requires Safe(s) && CanAdvance(s, v, seen)
    ensures Effect(s, Apply(s, Advance(v, seen, ok, ttl)), v, NextExec(s, v, seen, ok))
  {
    var pc := s.execs[v].pc;
    var t := Apply(s, Advance(v, seen, ok, ttl));
    assert ExecOk(s, v, s.execs[v]);
    if pc.HistPut? {
      assert t.history == s.history[pc.snapshot.version := pc.snapshot.(ttl := ttl)];
    }
    forall k | k in s.rows ensures Inserted(t, k) == Inserted(s, k) && Inserted(s, k).Some? {
      assert s.rows[k] != [];
    }
  }

  lemma EffectKeepsProjection(s: State, t: State, v: int, e: Exec)
    requires Projected(s) && v in s.execs && Effect(s, t, v, e)
    ensures DataIsProjected(t)
  {
    assert ExecOk(s, v, s.execs[v]) && SyncsCurrent(s, s.execs[v]);
    forall k | 1 <= k <= |t.data| ensures ProjectedAt(t, k) {
      assert k in s.rows;
      if k <= |s.data| {
        assert ProjectedAt(s, k);
      }
    }
  }

  lemma AdvanceKeepsProjected(s: State, v: int, seen: nat, ok: bool, ttl: Option<int>)
    requires Projected(s) && CanAdvance(s, v, seen)
    requires s.execs[v].pc.SyncRead? ==> seen == |s.data|
    ensures Projected(Apply(s, Advance(v, seen, ok, ttl)))
  {
    var t := Apply(s, Advance(v, seen, ok, ttl));
    var e := NextExec(s, v, seen, ok);
    AdvanceKeeps(s, v, seen, ok, ttl);
    AdvanceEffect(s, v, seen, ok, ttl);
    EffectKeepsProjection(s, t, v, e);
    forall u | u in t.execs ensures SyncsCurrent(t, t.execs[u]) {
      if u != v {
        assert ExecOk(s, v, s.execs[v]) && ExecOk(s, u, s.execs[u]) && SyncsCurrent(s, s.execs[u]);
      }
    }
  }

  lemma EffectKeepsComplete(s: State, t: State, v: int, e: Exec)
    requires Audited(s) && v in s.execs && Effect(s, t, v, e)
    ensures HistoryComplete(t)
  {
    assert ExecOk(s, v, s.execs[v]) && CopiesCurrent(s, v, s.execs[v]);
  }

  lemma NextCopiesCurrent(s: State, t: State, v: int, seen: nat, ok: bool)
    requires Audited(s) && CanAdvance(s, v, seen)
    requires Effect(s, t, v, NextExec(s, v, seen, ok))
    requires s.execs[v].pc.HistRead? ==> seen == |s.data|
    ensures CopiesCurrent(t, v, NextExec(s, v, seen, ok))
  {
    var e := NextExec(s, v, seen, ok);
    var pc := s.execs[v].pc;
    assert ExecOk(s, v, s.execs[v]) && CopiesCurrent(s, v, s.execs[v]);
    if pc.HistPut? {
      assert pc.snapshot.version == |s.data| == v - 1;
    } else if pc.HistRead? {
      assert |s.data| == v - 1;
    } else if pc.SyncPut? {
      assert !PastCopy(e);
    } else {
      assert !e.pc.HistPut? && (PastCopy(e) ==> PastCopy(s.execs[v]));
    }
  }

  lemma OthersCopyCurrent(s: State, t: State, v: int, e: Exec, u: int)
    requires Audited(s) && v in s.execs && Effect(s, t, v, e) && u in s.execs && u != v
    ensures CopiesCurrent(t, u, t.execs[u])
  {
    assert ExecOk(s, v, s.execs[v]) && ExecOk(s, u, s.execs[u]) && CopiesCurrent(s, u, s.execs[u]);
  }

  lemma AdvanceKeepsAudited(s: State, v: int, seen: nat, ok: bool, ttl: Option<int>)
    requires Audited(s) && CanAdvance(s, v, seen)
    requires s.execs[v].pc.HistRead? ==> seen == |s.data|
    ensures Audited(Apply(s, Advance(v, seen, ok, ttl)))
  {
    var t := Apply(s, Advance(v, seen, ok, ttl));
    var e := NextExec(s, v, seen, ok);
    AdvanceKeeps(s, v, seen, ok, ttl);
    AdvanceEffect(s, v, seen, ok, ttl);
    EffectKeepsComplete(s, t, v, e);
    NextCopiesCurrent(s, t, v, seen, ok);
    forall u | u in t.execs ensures CopiesCurrent(t, u, t.execs[u]) {
      if u != v {
        OthersCopyCurrent(s, t, v, e, u);
      }
    }
  }

  // A step that touches neither the data row nor history, and moves nobody to one of the puts.
  ghost predicate Quiet(s: State, t: State) {
    && t.data == s.data && t.history == s.history
    && (forall k :: k in s.rows ==> Inserted(t, k) == Inserted(s, k))
    && (forall u :: u in t.execs ==>
          (u in s.execs && t.execs[u].pc == s.execs[u].pc)
          || (!t.execs[u].pc.HistPut? && !t.execs[u].pc.SyncPut? && !PastCopy(t.execs[u])))
  }

  lemma QuietStep(s: State, a: Action)
    requires Safe(s) && Enabled(s, a) && !a.Advance?
    ensures Quiet(s, Apply(s, a))
  {
    var t := Apply(s, a);
    forall u | u in t.execs
      ensures (u in s.execs && t.execs[u].pc == s.execs[u].pc)
              || (!t.execs[u].pc.HistPut? && !t.execs[u].pc.SyncPut? && !PastCopy(t.execs[u]))
    {
      QuietExec(s, a, u);
    }
  }

  lemma QuietExec(s: State, a: Action, u: int)
    requires Safe(s) && Enabled(s, a) && !a.Advance? && u in Apply(s, a).execs
    ensures var e := Apply(s, a).execs[u];
            (u in s.execs && e.pc == s.execs[u].pc) || (!e.pc.HistPut? && !e.pc.SyncPut? && !PastCopy(e))
  {
  }

  lemma QuietKeepsAudited(s: State, t: State)
    requires Audited(s) && Safe(t) && Quiet(s, t)
    ensures Audited(t)
  {
    forall u | u in t.execs ensures CopiesCurrent(t, u, t.execs[u]) {
      assert u in s.execs ==> CopiesCurrent(s, u, s.execs[u]);
    }
  }

  lemma QuietKeepsProjected(s: State, t: State)
    requires Projected(s) && Safe(t) && Quiet(s, t)
    ensures Projected(t)
  {
    forall k | 1 <= k <= |t.data| ensures ProjectedAt(t, k) {
      assert k in s.rows && ProjectedAt(s, k);
    }
    forall u | u in t.execs ensures SyncsCurrent(t, t.execs[u]) {
      assert u in s.execs ==> SyncsCurrent(s, s.execs[u]);
    }
  }

  lemma StepKeepsAudited(env: Env, s: State, a: Action)
    requires env.cleanCopies && env.currentCopies && Audited(s) && Enabled(s, a) && Admits(env, s, a)
    ensures Audited(Apply(s, a))
  {
    if a.Advance? {
      AdvanceKeepsAudited(s, a.version, a.seen, a.ok, a.ttl);
    } else {
      StepKeepsSafe(env, s, a);
      QuietStep(s, a);
      QuietKeepsAudited(s, Apply(s, a));
    }
  }

  lemma StepKeepsProjected(env: Env, s: State, a: Action)
    requires env.cleanCopies && env.currentSyncs && Projected(s) && Enabled(s, a) && Admits(env, s, a)
    ensures Projected(Apply(s, a))
  {
    if a.Advance? {
      AdvanceKeepsProjected(s, a.version, a.seen, a.ok, a.ttl);
    } else {
      StepKeepsSafe(env, s, a);
      QuietStep(s, a);
      QuietKeepsProjected(s, Apply(s, a));
    }
  }

  lemma {:induction false} RunKeepsHistorySound(env: Env, s: State, actions: seq<Action>)
    requires env.cleanCopies && Safe(s) && HistorySound(s) && RunFrom(env, s, actions).Some?
    ensures HistorySound(RunFrom(env, s, actions).value)
    decreases |actions|
  {
    if actions != [] {
      StepKeepsSafe(env, s, actions[0]);
      StepKeepsHistorySound(env, s, actions[0]);
      RunKeepsHistorySound(env, Apply(s, actions[0]), actions[1..]);
    }
  }

  lemma {:induction false} RunKeepsAudited(env: Env, s: State, actions: seq<Action>)
    requires env.cleanCopies && env.currentCopies && Audited(s) && RunFrom(env, s, actions).Some?
    ensures Audited(RunFrom(env, s, actions).value)
    decreases |actions|
  {
    if actions != [] {
      StepKeepsAudited(env, s, actions[0]);
      RunKeepsAudited(env, Apply(s, actions[0]), actions[1..]);
    }
  }

  lemma {:induction false} RunKeepsProjected(env: Env, s: State, actions: seq<Action>)
    requires env.cleanCopies && env.currentSyncs && Projected(s) && RunFrom(env, s, actions).Some?
    ensures Projected(RunFrom(env, s, actions).value)
    decreases |actions|
  {
    if actions != [] {
      StepKeepsProjected(env, s, actions[0]);
      RunKeepsProjected(env, Apply(s, actions[0]), actions[1..]);
    }
  }

  lemma ReachableAudited(env: Env, s: State)
    requires env.cleanCopies && env.currentCopies && Reachable(env, s)
    ensures Audited(s)
  {
    var actions :| RunFrom(env, Init, actions) == Some(s);
    RunKeepsAudited(env, Init, actions);
  }

  lemma ReachableProjected(env: Env, s: State)
    requires env.cleanCopies && env.currentSyncs && Reachable(env, s)
    ensures Projected(s)
  {
    var actions :| RunFrom(env, Init, actions) == Some(s);
    RunKeepsProjected(env, Init, actions);
  }

  // ---------------------------------------------------------------- main results

  // The commands of versions 1..n as they were inserted.
  function ChainOf(s: State, n: nat): seq<Command>
    requires forall k :: 1 <= k <= n ==> Inserted(s, k).Some?
  {
    if n == 0 then [] else ChainOf(s, n - 1) + [Inserted(s, n).value]
  }

  // Even with stale reads, a history row never lies: it is the data row of its version.
  lemma HistoryNeverLies(env: Env, s: State)
    requires env.cleanCopies && Reachable(env, s)
    ensures HistorySound(s)
  {
    var actions :| RunFrom(env, Init, actions) == Some(s);
    RunKeepsHistorySound(env, Init, actions);
  }

  // With current reads of sync_data the data row is the fold of the chain: whatever the
  // interleaving, applying versions 1..n gives what projecting their commands one after another
  // gives.
  lemma {:induction false} DataIsFoldOfChain(env: Env, s: State, n: nat)
    requires env.cleanCopies && env.currentSyncs && Reachable(env, s)
    requires n <= |s.data|
    ensures forall k :: 1 <= k <= n ==> Inserted(s, k).Some?
    ensures Before(s.data, n) == Fold(ChainOf(s, n))
  {
    ReachableProjected(env, s);
    assert forall k :: 1 <= k <= n ==> ProjectedAt(s, k);
    if n > 0 {
      DataIsFoldOfChain(env, s, n - 1);
      var chain := ChainOf(s, n);
      assert ProjectedAt(s, n) && Before(s.data, n) == Some(s.data[n - 1]);
      assert chain[|chain| - 1] == Inserted(s, n).value;
      assert chain[..|chain| - 1] == ChainOf(s, n - 1);
    }
  }

  // Audit completeness, with current reads of history_copy and any reads of sync_data: every
  // superseded data row is in history, and once the chain is fully applied history holds exactly
  // versions 1..n - 1.
  lemma AuditComplete(env: Env, s: State)
    requires env.cleanCopies && env.currentCopies && Reachable(env, s)
    ensures forall k :: 1 <= k < |s.data| ==> k in s.history && SameButTtl(s.history[k], s.data[k - 1])
    ensures |s.data| == |s.rows| ==> forall k :: k in s.history <==> 1 <= k < |s.rows|
  {
    ReachableAudited(env, s);
    HistoryNeverLies(env, s);
  }

  // Exactly when the copy of one version is complete: history_copy of version v saves the
  // row it is about to supersede if and only if its read of the data row was current.
  lemma CopySavesPredecessorIffCurrent(env: Env, s: State, v: int, seen: nat, ok: bool, ttl: Option<int>)
    requires env.cleanCopies && Reachable(env, s) && CanAdvance(s, v, seen)
    requires s.execs[v].pc.HistRead? && v >= 2 && v - 1 !in s.history
    ensures var t := Apply(s, Advance(v, seen, ok, ttl));
            CanAdvance(t, v, seen) &&
            (v - 1 in Apply(t, Advance(v, seen, ok, ttl)).history <==> seen == |s.data|)
  {
    ReachableSafe(env, s);
    assert ExecOk(s, v, s.execs[v]);
    AdvanceKeeps(s, v, seen, ok, ttl);
    assert seen > 0 ==> s.data[seen - 1].version == seen;
  }

  // ---------------------------------------------------------------- stale reads of sync_data

  // The created* fields that a command gets from the row that sync_data read.
  function CreatedOver(existing: Option<DataRow>, cmd: Command): Stamp {
    if existing.Some? then FirstStamp(existing.value.created, cmd.created) else cmd.created
  }

  predicate SameButCreated(a: DataRow, b: DataRow) {
    a.(created := b.created) == b
  }

  ghost predicate WrittenFromCommands(s: State) {
    forall k :: 1 <= k <= |s.data| ==>
      Inserted(s, k).Some? && SameButCreated(s.data[k - 1], Project(Inserted(s, k).value, None))
  }

  lemma StepKeepsWritten(env: Env, s: State, a: Action)
    requires env.cleanCopies && Safe(s) && WrittenFromCommands(s) && Enabled(s, a) && Admits(env, s, a)
    ensures WrittenFromCommands(Apply(s, a))
  {
    var t := Apply(s, a);
    if a.Advance? {
      AdvanceEffect(s, a.version, a.seen, a.ok, a.ttl);
      assert ExecOk(s, a.version, s.execs[a.version]);
    } else {
      QuietStep(s, a);
    }
    forall k | 1 <= k <= |t.data|
      ensures Inserted(t, k).Some? && SameButCreated(t.data[k - 1], Project(Inserted(t, k).value, None))
    {
      assert k in s.rows;
    }
  }

  lemma {:induction false} RunKeepsWritten(env: Env, s: State, actions: seq<Action>)
    requires env.cleanCopies && Safe(s) && WrittenFromCommands(s) && RunFrom(env, s, actions).Some?
    ensures WrittenFromCommands(RunFrom(env, s, actions).value)
    decreases |actions|
  {
    if actions != [] {
      StepKeepsSafe(env, s, actions[0]);
      StepKeepsWritten(env, s, actions[0]);
      RunKeepsWritten(env, Apply(s, actions[0]), actions[1..]);
    }
  }

  // However stale the reads, every data row is its own command in all but the created* fields.
  lemma DataIsCommandButCreated(env: Env, s: State, n: nat)
    requires env.cleanCopies && Reachable(env, s) && 1 <= n <= |s.data|
    ensures Inserted(s, n).Some? && SameButCreated(s.data[n - 1], Project(Inserted(s, n).value, None))
  {
    var actions :| RunFrom(env, Init, actions) == Some(s);
    RunKeepsWritten(env, Init, actions);
  }

  // Exactly when the fold goes on, whatever was read: the row that sync_data is about to write is
  // the fold of the chain if and only if the row it read gives the command the same created*
  // fields as the current one.
  lemma FoldGoesOnIff(env: Env, s: State, v: int, seen: nat, ok: bool, ttl: Option<int>)
    requires env.cleanCopies && Reachable(env, s) && CanAdvance(s, v, seen) && s.execs[v].pc.SyncPut?
    requires forall k :: 1 <= k < v ==> Inserted(s, k).Some?
    requires v >= 1 && v - 1 <= |s.data| && Before(s.data, v - 1) == Fold(ChainOf(s, v - 1))
    ensures |s.data| == v - 1 && Inserted(s, v).Some?
    ensures var t := Apply(s, Advance(v, seen, ok, ttl));
            && |t.data| == v && (forall k :: 1 <= k <= v ==> Inserted(t, k).Some?)
            && (Before(t.data, v) == Fold(ChainOf(t, v)) <==>
                  CreatedOver(s.execs[v].pc.existing, Inserted(s, v).value) == CreatedOver(Before(s.data, v - 1), Inserted(s, v).value))
  {
    ReachableSafe(env, s);
    assert ExecOk(s, v, s.execs[v]);
    var t := Apply(s, Advance(v, seen, ok, ttl));
    AdvanceEffect(s, v, seen, ok, ttl);
    forall k | 1 <= k <= v ensures Inserted(t, k) == Inserted(s, k) && Inserted(s, k).Some? {
      assert k in s.rows;
    }
    SameChain(s, t, v - 1);
    var chain := ChainOf(t, v);
    assert chain[|chain| - 1] == Inserted(s, v).value && chain[..|chain| - 1] == ChainOf(t, v - 1);
  }

  lemma {:induction false} SameChain(s: State, t: State, n: nat)
    requires forall k :: 1 <= k <= n ==> Inserted(s, k).Some? && Inserted(t, k) == Inserted(s, k)
    ensures ChainOf(t, n) == ChainOf(s, n)
  {
    if n > 0 {
      SameChain(s, t, n - 1);
    }
  }
}
