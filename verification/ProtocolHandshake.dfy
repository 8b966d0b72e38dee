/**
 The two-sided wake-up between adjacent versions. The successor stores its task token and
 then reads its predecessor's status; the predecessor writes `finish:STARTED` and then reads
 its successor's token. Whatever the interleaving, one of the two reads sees the other
 side's write.
 */
module ProtocolHandshake {
  import opened Wrappers
  import opened CommandModel
  import opened CommandProtocol
  import opened ProtocolSafety

  predicate InFinish(e: Exec) {
    !e.sync && (e.pc.FinRead? || e.pc.FinResume? || e.pc.FinEnd? || e.pc.Done?)
  }

  // The push read of version v found no token of its successor.
  predicate Missed(v: int, e: Exec) {
    || e.push.PushNothing?
    || (e.push.PushSent? && e.push.waiter != v + 1)
    || (e.pc.FinResume? && e.pc.waiter != v + 1)
  }

  predicate Checking(pc: Pc) {
    BeforeGate(pc) && !pc.Waiting?
  }

  // The requests that publishSync makes.
  predicate SyncPc(pc: Pc) {
    || pc.TtlRead? || pc.TtlPut? || pc.HistRead? || pc.HistPut? || pc.SyncRead? || pc.SyncPut?
    || pc.PsEnd? || pc.Done? || pc.Stopped?
  }

  predicate TokenStored(w: WaitPc) {
    w in {WtRead, WtResume, WtEnd, WtDone}
  }

  // The fields of one execution agree with each other.
  predicate Tidy(v: int, e: Exec) {
    && (e.pc.FinRead? || e.pc.FinResume? || (!InFinish(e) && !e.pc.Stopped?) ==> e.push.PushPending?)
    && (InFinish(e) && (e.pc.FinEnd? || e.pc.Done?) ==> !e.push.PushPending?)
    && (!(e.wait in {WtEnd, WtDone}) ==> e.pull.PullPending?)
    && (e.pc.Waiting? && e.wait in {WtEnd, WtDone} && v > 1 ==> !e.pull.PullPending?)
    && (Checking(e.pc) ==> e.wait.Idle?)
    && (e.pc.Waiting? ==> !e.wait.Idle?)
    && (e.sync ==> e.wait.Idle? && SyncPc(e.pc))
    && (!e.sync ==> !e.pc.PsEnd?)
  }

  predicate GateOpen(s: State, v: int) {
    v in s.execs && !BeforeGate(s.execs[v].pc)
  }

  // Version v + 1 has been resumed, or no longer needs to be.
  predicate Woken(s: State, v: int) {
    v in s.resumed || GateOpen(s, v)
  }

  predicate PastCheck(s: State, v: int) {
    v in s.execs && !Checking(s.execs[v].pc)
  }

  // While version v is in finish and nobody of v + 1 is past the gate, row v says so.
  predicate FinishShows(s: State, v: int)
    requires v in s.execs && RowLog(s, v) != []
  {
    InFinish(s.execs[v]) && !GateOpen(s, v + 1) ==> IsFinish(Last(RowLog(s, v)).status)
  }

  // While version v is suspended with its token stored, row v holds that token.
  predicate TokenShows(s: State, v: int)
    requires v in s.execs && RowLog(s, v) != []
  {
    s.execs[v].pc.Waiting? && TokenStored(s.execs[v].wait) ==> Last(RowLog(s, v)).token == Some(v)
  }

  // A push that found no token came before the successor's read, so that read is not early.
  predicate NotBothMissed(s: State, v: int)
    requires v in s.execs
  {
    InFinish(s.execs[v]) && Missed(v, s.execs[v]) && v + 1 in s.execs && !GateOpen(s, v + 1)
    ==> !s.execs[v + 1].pull.PullEarly?
  }

  predicate ResumesHold(s: State, v: int)
    requires v in s.execs
  {
    && (s.execs[v].pc == FinResume(v + 1) ==> PastCheck(s, v + 1))
    && (s.execs[v].push == PushSent(v + 1) ==> Woken(s, v + 1))
    && (s.execs[v].pull.PullResumed? ==> Woken(s, v))
  }

  // What version v and its successor know about each other. A version is hasty if it started
  // `finish` while its wait function still had a status to write: then its row may not show
  // `finish`.
  predicate Linked(s: State, v: int, hasty: set<int>) {
    && v in s.execs && RowLog(s, v) != []
    && Tidy(v, s.execs[v]) && TokenShows(s, v) && ResumesHold(s, v)
    && (v !in hasty ==> Settled(s.execs[v]) && FinishShows(s, v) && NotBothMissed(s, v))
  }

  predicate Settled(e: Exec) {
    InFinish(e) ==> e.wait in {Idle, WtDone}
  }

  ghost predicate TokensOwned(s: State) {
    forall k, r :: k in s.rows && r in s.rows[k] && r.token == Some(k) ==> PastCheck(s, k)
  }

  ghost predicate Handshake(s: State, hasty: set<int>) {
    && Safe(s)
    && TokensOwned(s)
    && (forall v :: v in s.execs ==> Linked(s, v, hasty))
  }

  // A step by which version v starts `finish` with its wait function unsettled.
  predicate StartsFinishEarly(s: State, a: Action, v: int) {
    a.Advance? && a.version == v && v in s.execs && s.execs[v].pc.FinStart? && s.execs[v].wait !in {Idle, WtDone}
  }

  function HastyAfter(s: State, a: Action, hasty: set<int>): set<int> {
    if a.Advance? && StartsFinishEarly(s, a, a.version) then hasty + {a.version} else hasty
  }

  // ---------------------------------------------------------------- steps

  // The outline of a step of execution u: it writes its own row or, on its way through
  // updateTtl, the row before; everything it has gained it keeps.
  ghost predicate Moved(s: State, t: State, u: int) {
    && u in s.execs && t.execs.Keys == s.execs.Keys
    && (forall k :: k in s.execs && k != u ==> t.execs[k] == s.execs[k])
    && (forall k :: k in s.rows && k != u && !(k == u - 1 && s.execs[u].pc.TtlPut?) ==> RowLog(t, k) == RowLog(s, k))
    && (forall k :: k in s.rows ==> RowLog(t, k) != [])
    && s.resumed <= t.resumed
    && (GateOpen(s, u) ==> GateOpen(t, u))
    && (PastCheck(s, u) ==> PastCheck(t, u))
  }

  // Nothing in a step of u unsettles the link between v and its successor, provided that u
  // does not miss a finish status it should have seen.
  lemma OthersStayLinked(s: State, t: State, u: int, v: int, hasty: set<int>)
    requires Handshake(s, hasty) && Moved(s, t, u) && v != u && v in s.execs
    requires t.execs[u].pull.PullEarly? && !s.execs[u].pull.PullEarly?
             ==> RowLog(s, u - 1) == [] || !IsFinish(Last(RowLog(s, u - 1)).status)
    ensures Linked(t, v, hasty)
  {
    assert Linked(s, v, hasty) && ExecOk(s, v, s.execs[v]) && ExecOk(s, u, s.execs[u]);
  }

  lemma AdvanceWrites(s: State, u: int, seen: nat, ok: bool, ttl: Option<int>)
    requires Safe(s) && CanAdvance(s, u, seen)
    ensures var req := NextRequest(s, u, seen, ok, ttl);
            req.PutRow? ==> req.key in s.rows && (req.key == u || (req.key == u - 1 && s.execs[u].pc.TtlPut?))
  {
    assert ExecOk(s, u, s.execs[u]);
  }

  lemma AdvanceKeepsGround(s: State, u: int, seen: nat, ok: bool)
    requires CanAdvance(s, u, seen)
    ensures !BeforeGate(s.execs[u].pc) ==> !BeforeGate(NextExec(s, u, seen, ok).pc)
    ensures !Checking(s.execs[u].pc) ==> !Checking(NextExec(s, u, seen, ok).pc)
  {
  }

  lemma AdvanceMoves(s: State, u: int, seen: nat, ok: bool, ttl: Option<int>)
    requires Safe(s) && CanAdvance(s, u, seen)
    ensures Moved(s, Apply(s, Advance(u, seen, ok, ttl)), u)
  {
    assert ExecOk(s, u, s.execs[u]);
    AdvanceWrites(s, u, seen, ok, ttl);
    AdvanceKeepsGround(s, u, seen, ok);
  }

  lemma AdvanceWaitMoves(s: State, u: int, ok: bool)
    requires Safe(s) && Enabled(s, AdvanceWait(u, ok))
    ensures Moved(s, Apply(s, AdvanceWait(u, ok)), u)
  {
  }

  lemma FailMoves(s: State, u: int, recorded: bool)
    requires Safe(s) && Enabled(s, Fail(u, recorded))
    ensures Moved(s, Apply(s, Fail(u, recorded)), u)
  {
  }

  lemma AdvanceTidy(s: State, v: int, seen: nat, ok: bool, hasty: set<int>)
    requires Handshake(s, hasty) && CanAdvance(s, v, seen)
    ensures Tidy(v, NextExec(s, v, seen, ok))
  {
    assert Linked(s, v, hasty) && ExecOk(s, v, s.execs[v]);
  }

  lemma AdvanceFinishShows(s: State, v: int, seen: nat, ok: bool, ttl: Option<int>, hasty: set<int>)
    requires Handshake(s, hasty) && CanAdvance(s, v, seen) && v !in hasty
    ensures var t := Apply(s, Advance(v, seen, ok, ttl)); RowLog(t, v) != [] && FinishShows(t, v)
  {
    assert Linked(s, v, hasty);
  }

  lemma AdvanceTokenShows(s: State, v: int, seen: nat, ok: bool, ttl: Option<int>, hasty: set<int>)
    requires Handshake(s, hasty) && CanAdvance(s, v, seen)
    ensures var t := Apply(s, Advance(v, seen, ok, ttl)); RowLog(t, v) != [] && TokenShows(t, v)
  {
    assert Linked(s, v, hasty);
  }

  lemma AdvanceNotBothMissed(s: State, v: int, seen: nat, ok: bool, ttl: Option<int>, hasty: set<int>)
    requires Handshake(s, hasty) && CanAdvance(s, v, seen) && v !in hasty
    ensures NotBothMissed(Apply(s, Advance(v, seen, ok, ttl)), v)
  {
    assert Linked(s, v, hasty);
    if v + 1 in s.execs {
      assert Linked(s, v + 1, hasty);
    }
  }

  lemma AdvanceResumesHold(s: State, v: int, seen: nat, ok: bool, ttl: Option<int>, hasty: set<int>)
    requires Handshake(s, hasty) && CanAdvance(s, v, seen)
    ensures ResumesHold(Apply(s, Advance(v, seen, ok, ttl)), v)
  {
    assert Linked(s, v, hasty);
    var t := Apply(s, Advance(v, seen, ok, ttl));
    AdvanceMoves(s, v, seen, ok, ttl);
    assert Woken(s, v) ==> Woken(t, v);
    assert Woken(s, v + 1) ==> Woken(t, v + 1);
    assert PastCheck(s, v + 1) ==> PastCheck(t, v + 1);
    if s.execs[v].pc.FinRead? {
      if v + 1 in s.rows {
        assert Last(s.rows[v + 1]) in s.rows[v + 1];
      }
    } else if s.execs[v].pc.FinResume? {
      assert t.execs[v].push == (if ok then PushSent(s.execs[v].pc.waiter) else PushFailed);
    } else {
      PushStays(s, v, seen, ok);
    }
  }

  lemma PushStays(s: State, v: int, seen: nat, ok: bool)
    requires CanAdvance(s, v, seen) && !s.execs[v].pc.FinRead? && !s.execs[v].pc.FinResume?
    ensures NextExec(s, v, seen, ok).push == s.execs[v].push && NextExec(s, v, seen, ok).pull == s.execs[v].pull
    ensures !NextExec(s, v, seen, ok).pc.FinResume?
  {
  }

  // The token values that a step leaves on a row were there before, unless it is the step
  // that stores the row's own token.
  lemma AdvanceTokens(s: State, u: int, seen: nat, ok: bool, ttl: Option<int>, hasty: set<int>)
    requires Handshake(s, hasty) && CanAdvance(s, u, seen)
    ensures TokensOwned(Apply(s, Advance(u, seen, ok, ttl)))
  {
    var t := Apply(s, Advance(u, seen, ok, ttl));
    AdvanceMoves(s, u, seen, ok, ttl);
    AdvanceWrites(s, u, seen, ok, ttl);
    var req := NextRequest(s, u, seen, ok, ttl);
    forall k, r | k in t.rows && r in t.rows[k] && r.token == Some(k) ensures PastCheck(t, k) {
      if r !in RowLog(s, k) {
        var q := if k == u then Last(s.rows[u]) else s.execs[u].pc.image;
        assert ExecOk(s, u, s.execs[u]);
        assert q in s.rows[k] && q.token == r.token;
      }
      assert PastCheck(s, k);
    }
  }

  lemma AdvanceSettled(s: State, v: int, seen: nat, ok: bool, hasty: set<int>)
    requires Handshake(s, hasty) && CanAdvance(s, v, seen) && v !in hasty
    requires s.execs[v].pc.FinStart? ==> s.execs[v].wait in {Idle, WtDone}
    ensures Settled(NextExec(s, v, seen, ok))
  {
    assert Linked(s, v, hasty);
  }

  lemma AdvanceOwn(s: State, u: int, seen: nat, ok: bool, ttl: Option<int>, hasty: set<int>)
    requires Handshake(s, hasty) && CanAdvance(s, u, seen)
    ensures Linked(Apply(s, Advance(u, seen, ok, ttl)), u, HastyAfter(s, Advance(u, seen, ok, ttl), hasty))
  {
    AdvanceMoves(s, u, seen, ok, ttl);
    AdvanceTidy(s, u, seen, ok, hasty);
    AdvanceTokenShows(s, u, seen, ok, ttl, hasty);
    AdvanceResumesHold(s, u, seen, ok, ttl, hasty);
    if u !in HastyAfter(s, Advance(u, seen, ok, ttl), hasty) {
      AdvanceSettled(s, u, seen, ok, hasty);
      AdvanceFinishShows(s, u, seen, ok, ttl, hasty);
      AdvanceNotBothMissed(s, u, seen, ok, ttl, hasty);
    }
  }

  lemma AdvanceKeepsHandshake(s: State, u: int, seen: nat, ok: bool, ttl: Option<int>, hasty: set<int>)
    requires Handshake(s, hasty) && CanAdvance(s, u, seen)
    ensures Handshake(Apply(s, Advance(u, seen, ok, ttl)), HastyAfter(s, Advance(u, seen, ok, ttl), hasty))
  {
    var t := Apply(s, Advance(u, seen, ok, ttl));
    var more := HastyAfter(s, Advance(u, seen, ok, ttl), hasty);
    AdvanceKeeps(s, u, seen, ok, ttl);
    AdvanceTokens(s, u, seen, ok, ttl, hasty);
    AdvanceMoves(s, u, seen, ok, ttl);
    AdvanceOwn(s, u, seen, ok, ttl, hasty);
    assert t.execs[u].pull == s.execs[u].pull;
    forall v | v in t.execs && v != u ensures Linked(t, v, more) {
      OthersStayLinked(s, t, u, v, hasty);
    }
  }

  lemma WaitOwn(s: State, v: int, ok: bool, hasty: set<int>)
    requires Handshake(s, hasty) && Enabled(s, AdvanceWait(v, ok))
    ensures Linked(Apply(s, AdvanceWait(v, ok)), v, hasty)
  {
    assert Linked(s, v, hasty);
    var e, t := WaitExec(s, v, ok), Apply(s, AdvanceWait(v, ok));
    assert v !in hasty ==> !InFinish(s.execs[v]);
    assert t.execs[v] == e && e.pc == s.execs[v].pc && e.push == s.execs[v].push;
    assert Woken(s, v) ==> Woken(t, v);
    assert TokenShows(t, v) && ResumesHold(t, v);
  }

  lemma WaitTokens(s: State, u: int, ok: bool, hasty: set<int>)
    requires Handshake(s, hasty) && Enabled(s, AdvanceWait(u, ok))
    ensures TokensOwned(Apply(s, AdvanceWait(u, ok)))
  {
    var t := Apply(s, AdvanceWait(u, ok));
    assert Linked(s, u, hasty);
    forall k, r | k in t.rows && r in t.rows[k] && r.token == Some(k) ensures PastCheck(t, k) {
      if r in RowLog(s, k) {
        assert PastCheck(s, k);
      } else if s.execs[u].wait.WtToken? {
        assert k == u;
      } else {
        assert k == u && Last(s.rows[u]) in s.rows[u] && Last(s.rows[u]).token == r.token;
        assert PastCheck(s, k);
      }
    }
  }

  lemma AdvanceWaitKeepsHandshake(s: State, u: int, ok: bool, hasty: set<int>)
    requires Handshake(s, hasty) && Enabled(s, AdvanceWait(u, ok))
    ensures Handshake(Apply(s, AdvanceWait(u, ok)), hasty)
  {
    var t := Apply(s, AdvanceWait(u, ok));
    AdvanceWaitKeeps(s, u, ok);
    WaitTokens(s, u, ok, hasty);
    WaitOwn(s, u, ok, hasty);
    AdvanceWaitMoves(s, u, ok);
    forall v | v in t.execs && v != u ensures Linked(t, v, hasty) {
      OthersStayLinked(s, t, u, v, hasty);
    }
  }

  lemma FailKeepsHandshake(s: State, u: int, recorded: bool, hasty: set<int>)
    requires Handshake(s, hasty) && Enabled(s, Fail(u, recorded))
    ensures Handshake(Apply(s, Fail(u, recorded)), hasty)
  {
    var t := Apply(s, Fail(u, recorded));
    FailKeeps(s, u, recorded);
    FailMoves(s, u, recorded);
    assert Linked(s, u, hasty);
    forall k, r | k in t.rows && r in t.rows[k] && r.token == Some(k) ensures PastCheck(t, k) {
      if r !in RowLog(s, k) {
        assert k == u && Last(s.rows[u]) in s.rows[u] && Last(s.rows[u]).token == r.token;
      }
      assert PastCheck(s, k);
    }
    assert Linked(t, u, hasty);
    forall v | v in t.execs && v != u ensures Linked(t, v, hasty) {
      OthersStayLinked(s, t, u, v, hasty);
    }
  }

  lemma InsertKeepsHandshake(s: State, base: int, cmd: Command, origin: Origin, hasty: set<int>)
    requires Handshake(s, hasty) && Enabled(s, Insert(base, cmd, origin))
    requires origin.Copied? ==> !IsFinish(origin.image.status)
    ensures Handshake(Apply(s, Insert(base, cmd, origin)), hasty)
  {
    var t := Apply(s, Insert(base, cmd, origin));
    InsertKeeps(s, base, cmd, origin);
    if origin.Copied? {
      assert RowOk(s, base, origin.image);
    }
    forall v | v in t.execs ensures Linked(t, v, hasty) {
      assert Linked(s, v, hasty);
    }
    forall k, r | k in t.rows && r in t.rows[k] && r.token == Some(k) ensures PastCheck(t, k) {
      assert k != base + 1;
      assert PastCheck(s, k);
    }
  }

  lemma InsertSyncKeepsHandshake(s: State, seen: nat, cmd: Command, hasty: set<int>)
    requires Handshake(s, hasty) && Enabled(s, InsertSync(seen, cmd))
    ensures Handshake(Apply(s, InsertSync(seen, cmd)), hasty)
  {
    var t := Apply(s, InsertSync(seen, cmd));
    InsertSyncKeeps(s, seen, cmd);
    forall v | v in t.execs && v in s.execs ensures Linked(t, v, hasty) {
      assert Linked(s, v, hasty);
    }
    forall k, r | k in t.rows && r in t.rows[k] && r.token == Some(k) ensures PastCheck(t, k) {
      assert PastCheck(s, k);
    }
  }

  lemma StartKeepsHandshake(s: State, u: int, hasty: set<int>)
    requires Handshake(s, hasty) && Enabled(s, Start(u))
    ensures Handshake(Apply(s, Start(u)), hasty)
  {
    var t := Apply(s, Start(u));
    ReplaceExec(s, u, Exec(false, CvStart, Idle, PullPending, PushPending));
    forall v | v in t.execs && v in s.execs ensures Linked(t, v, hasty) {
      assert Linked(s, v, hasty);
    }
    forall k, r | k in t.rows && r in t.rows[k] && r.token == Some(k) ensures PastCheck(t, k) {
      assert PastCheck(s, k);
    }
  }

  // Every request keeps the handshake of all versions but the hasty ones.
  lemma StepKeepsHandshake(env: Env, s: State, a: Action, hasty: set<int>)
    requires env.cleanCopies && Handshake(s, hasty) && Enabled(s, a) && Admits(env, s, a)
    ensures Handshake(Apply(s, a), HastyAfter(s, a, hasty))
    ensures env.settledWaits ==> HastyAfter(s, a, hasty) == hasty
  {
    match a
    case Insert(base, cmd, origin) => InsertKeepsHandshake(s, base, cmd, origin, hasty);
    case InsertSync(seen, cmd) => InsertSyncKeepsHandshake(s, seen, cmd, hasty);
    case Start(v) => StartKeepsHandshake(s, v, hasty);
    case Advance(v, seen, ok, ttl) => AdvanceKeepsHandshake(s, v, seen, ok, ttl, hasty);
    case AdvanceWait(v, ok) => AdvanceWaitKeepsHandshake(s, v, ok, hasty);
    case Fail(v, recorded) => FailKeepsHandshake(s, v, recorded, hasty);
  }

  // The versions that start `finish` early in a run.
  function HastyIn(env: Env, s: State, actions: seq<Action>, hasty: set<int>): set<int>
    requires RunFrom(env, s, actions).Some?
    decreases |actions|
  {
    if actions == [] then hasty else HastyIn(env, Apply(s, actions[0]), actions[1..], HastyAfter(s, actions[0], hasty))
  }

  lemma {:induction false} RunKeepsHandshake(env: Env, s: State, actions: seq<Action>, hasty: set<int>)
    requires env.cleanCopies && Handshake(s, hasty) && RunFrom(env, s, actions).Some?
    ensures Handshake(RunFrom(env, s, actions).value, HastyIn(env, s, actions, hasty))
    ensures env.settledWaits ==> HastyIn(env, s, actions, hasty) == hasty
    decreases |actions|
  {
    if actions != [] {
      StepKeepsHandshake(env, s, actions[0], hasty);
      RunKeepsHandshake(env, Apply(s, actions[0]), actions[1..], HastyAfter(s, actions[0], hasty));
    }
  }

  lemma ReachableHandshake(env: Env, s: State)
    requires env.cleanCopies && env.settledWaits && Reachable(env, s)
    ensures Handshake(s, {})
  {
    var actions :| RunFrom(env, Init, actions) == Some(s);
    RunKeepsHandshake(env, Init, actions, {});
  }

  // ---------------------------------------------------------------- main results

  // The push of version v and the wait of version v + 1 have both run their course, and
  // v + 1 is still suspended without having been resumed.
  predicate Stranded(s: State, v: int) {
    && v in s.execs && !s.execs[v].sync && (s.execs[v].pc.FinEnd? || s.execs[v].pc.Done?)
    && v + 1 in s.execs && s.execs[v + 1].pc.Waiting? && s.execs[v + 1].wait in {WtEnd, WtDone}
    && v + 1 !in s.resumed
  }

  lemma StrandedNeedsFailure(s: State, v: int, hasty: set<int>)
    requires Handshake(s, hasty) && Stranded(s, v) && v !in hasty
    ensures s.execs[v].push.PushFailed? || s.execs[v + 1].pull.PullFailed?
    ensures !s.execs[v + 1].pull.PullFailed? ==> s.execs[v + 1].pull.PullEarly?
  {
    assert Linked(s, v, hasty) && Linked(s, v + 1, hasty) && ExecOk(s, v, s.execs[v]);
    assert v in s.rows;
  }

  // No lost wake-up: a version can be stranded only if a read or a resume call failed for
  // good on one of the two sides; and when only the push failed, the successor had looked
  // before `finish` started.
  lemma NoLostWakeUp(env: Env, s: State, v: int)
    requires env.cleanCopies && env.settledWaits && Reachable(env, s) && Stranded(s, v)
    ensures s.execs[v].push.PushFailed? || s.execs[v + 1].pull.PullFailed?
    ensures !s.execs[v + 1].pull.PullFailed? ==> s.execs[v + 1].pull.PullEarly?
  {
    ReachableHandshake(env, s);
    StrandedNeedsFailure(s, v, {});
  }

  // Every read and every resume call between version v and its successor went through.
  predicate NothingFailed(s: State, v: int) {
    v in s.execs && v + 1 in s.execs && !s.execs[v].push.PushFailed? && !s.execs[v + 1].pull.PullFailed?
  }

  lemma {:induction false} HastyMeaning(env: Env, s: State, actions: seq<Action>, hasty: set<int>, v: int)
    requires RunFrom(env, s, actions).Some? && v in HastyIn(env, s, actions, hasty) && v !in hasty
    ensures exists i :: 0 <= i < |actions| && RunFrom(env, s, actions[..i]).Some?
                        && StartsFinishEarly(RunFrom(env, s, actions[..i]).value, actions[i], v)
    decreases |actions|
  {
    var a, rest := actions[0], actions[1..];
    if StartsFinishEarly(s, a, v) {
      assert actions[..0] == [];
    } else {
      HastyMeaning(env, Apply(s, a), rest, HastyAfter(s, a, hasty), v);
      var i :| 0 <= i < |rest| && RunFrom(env, Apply(s, a), rest[..i]).Some?
               && StartsFinishEarly(RunFrom(env, Apply(s, a), rest[..i]).value, rest[i], v);
      assert actions[..i + 1] == [a] + rest[..i] && actions[i + 1] == rest[i];
      assert (actions[..i + 1])[1..] == rest[..i];
    }
  }

  // The assumption on the wait function is local: in a run with clean copies that strands a
  // version although nothing failed, its predecessor wrote `finish:STARTED` while its own wait
  // function still had a status to write, whatever all other versions did.
  lemma StrandingStartsFinishEarly(env: Env, actions: seq<Action>, s: State, v: int)
    requires env.cleanCopies && RunFrom(env, Init, actions) == Some(s) && Stranded(s, v) && NothingFailed(s, v)
    ensures exists i :: 0 <= i < |actions| && RunFrom(env, Init, actions[..i]).Some?
                        && StartsFinishEarly(RunFrom(env, Init, actions[..i]).value, actions[i], v)
  {
    RunKeepsHandshake(env, Init, actions, {});
    var hasty := HastyIn(env, Init, actions, {});
    if v !in hasty {
      StrandedNeedsFailure(s, v, hasty);
    }
    HastyMeaning(env, Init, actions, {}, v);
  }

  // The backstop: from `finish:STARTED` on, whatever became of the push, a successor that
  // reads its predecessor's status resumes itself.
  lemma LateReaderResumesItself(env: Env, s: State, v: int)
    requires env.cleanCopies && env.settledWaits && Reachable(env, s)
    requires v in s.execs && InFinish(s.execs[v])
    requires v + 1 in s.execs && s.execs[v + 1].pc.Waiting? && s.execs[v + 1].wait.WtRead?
    ensures CanAdvanceWait(s, v + 1) && WaitExec(s, v + 1, true).wait.WtResume?
    ensures var t := Apply(s, AdvanceWait(v + 1, true));
            CanAdvanceWait(t, v + 1) && v + 1 in Apply(t, AdvanceWait(v + 1, true)).resumed
  {
    ReachableHandshake(env, s);
    assert Linked(s, v, {}) && Linked(s, v + 1, {});
  }
}
