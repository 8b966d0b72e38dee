/**
 Two assumptions of the protocol results that cannot be dropped, each shown by a run: a row
 that starts with a copied `finish` status breaks the order of application, and a wait
 function that writes its last status after `finish` has started strands the successor.
 */
module ProtocolLimits {
  import opened Wrappers
  import opened CommandModel
  import opened CommandProtocol
  import opened ProtocolSafety
  import opened ProtocolHandshake
  import opened ProtocolAudit
  import opened ProtocolProgress

  // ---------------------------------------------------------------- building runs

  ghost predicate Leads(env: Env, s: State, actions: seq<Action>, t: State) {
    RunFrom(env, s, actions) == Some(t)
  }

  lemma OneStep(env: Env, s: State, a: Action)
    requires Enabled(s, a) && Admits(env, s, a)
    ensures Leads(env, s, [a], Apply(s, a))
  {
    assert [a][1..] == [];
  }

  lemma Chained(env: Env, s: State, xs: seq<Action>, t: State, ys: seq<Action>, u: State)
    requires Leads(env, s, xs, t) && Leads(env, t, ys, u)
    ensures Leads(env, s, xs + ys, u)
  {
    RunConcat(env, s, xs, ys);
  }

  // The next request of execution v, with current reads and nothing failing.
  function Go(s: State, v: int): Action {
    Advance(v, if v in s.execs && s.execs[v].pc.TtlRead? then |RowLog(s, v - 1)| else |s.data|, true, None)
  }

  // Everything outside the reach of execution v is as before.
  ghost predicate OnlyTouched(s: State, t: State, v: int) {
    && v in s.execs && v in t.execs
    && t.execs.Keys == s.execs.Keys
    && (forall k :: RowLog(s, k) != [] ==> RowLog(t, k) != [] && RowLog(t, k)[0] == RowLog(s, k)[0])
    && (forall k :: k in s.execs && k != v ==> t.execs[k] == s.execs[k])
    && (forall k :: k != v && k != v - 1 ==> RowLog(t, k) == RowLog(s, k))
    && RowLog(s, v) != [] && RowLog(t, v) != []
    && Last(RowLog(t, v)).token == Last(RowLog(s, v)).token
    && t.rows.Keys == s.rows.Keys
    && t.resumed == s.resumed
  }

  predicate Ready(s: State, v: int) {
    v in s.execs && !s.execs[v].sync && v in s.rows && s.rows[v] != [] && (v > 1 ==> v - 1 in s.rows)
    && (s.execs[v].pc.TtlPut? ==> v > 1)
  }

  lemma CanGo(s: State, v: int)
    requires Ready(s, v) && Passed(s.execs[v].pc) && !Applied(s.execs[v].pc)
    ensures CanAdvance(s, v, Go(s, v).seen)
  {
  }

  lemma GoTouches(s: State, v: int)
    requires Ready(s, v) && Passed(s.execs[v].pc) && !Applied(s.execs[v].pc)
    ensures CanAdvance(s, v, Go(s, v).seen)
    ensures var t := Apply(s, Go(s, v));
            OnlyTouched(s, t, v) && Ready(t, v) && t.execs[v] == s.execs[v].(pc := t.execs[v].pc)
  {
    CanGo(s, v);
    var t := Apply(s, Go(s, v));
    assert t.rows.Keys == s.rows.Keys && t.execs.Keys == s.execs.Keys && t.resumed == s.resumed;
  }

  // On the way to that write, the data row stays.
  lemma GoGoesOn(s: State, v: int)
    requires Ready(s, v) && Passed(s.execs[v].pc) && !Applied(s.execs[v].pc) && !s.execs[v].pc.SyncPut?
    ensures CanAdvance(s, v, Go(s, v).seen)
    ensures var t := Apply(s, Go(s, v));
            && v in t.execs && t.data == s.data && Passed(t.execs[v].pc) && !Applied(t.execs[v].pc)
            && PcRank(t.execs[v].pc) < PcRank(s.execs[v].pc)
  {
  }

  // From the gate to the write of the data row.
  lemma {:induction false} WalkToSync(env: Env, s: State, v: int) returns (actions: seq<Action>, t: State)
    requires Ready(s, v) && Passed(s.execs[v].pc) && !Applied(s.execs[v].pc)
    ensures Leads(env, s, actions, t) && OnlyTouched(s, t, v) && Ready(t, v)
    ensures t.execs[v] == s.execs[v].(pc := SyncEnd)
    ensures |t.data| == |s.data| + 1 && t.data[..|s.data|] == s.data
    ensures t.data[|s.data|].version == RowLog(s, v)[0].command.version
    decreases PcRank(s.execs[v].pc)
  {
    var a := Go(s, v);
    var u := Apply(s, a);
    GoTouches(s, v);
    OneStep(env, s, a);
    if s.execs[v].pc.SyncPut? {
      actions, t := [a], u;
    } else {
      GoGoesOn(s, v);
      var rest;
      rest, t := WalkToSync(env, u, v);
      Chained(env, s, [a], u, rest, t);
      actions := [a] + rest;
    }
  }

  // What check_version of execution v will decide if it reads the current data row.
  function Outlook(s: State, v: int): int
    requires v in s.execs
  {
    match s.execs[v].pc
    case CvPrev(next) => Verdict(s, v, next)
    case CvEnd(result) => result
    case _ => Verdict(s, v, 1 + VersionSeen(s, |s.data|))
  }

  predicate InCheck(pc: Pc) {
    pc.CvStart? || pc.CvData? || pc.CvPrev? || pc.CvEnd?
  }

  lemma CheckTouches(s: State, v: int)
    requires Ready(s, v) && InCheck(s.execs[v].pc)
    ensures CanAdvance(s, v, |s.data|)
    ensures var t := Apply(s, Go(s, v));
            && Ready(t, v) && OnlyTouched(s, t, v) && RowLog(t, v - 1) == RowLog(s, v - 1)
            && t.data == s.data && t.history == s.history
  {
  }

  lemma CheckDecides(s: State, v: int)
    requires Ready(s, v) && InCheck(s.execs[v].pc) && Outlook(s, v) in {0, 1} && CanAdvance(s, v, |s.data|)
    ensures var t := Apply(s, Go(s, v));
            && v in t.execs
            && (InCheck(t.execs[v].pc) ==> Outlook(t, v) == Outlook(s, v) && t.execs[v] == s.execs[v].(pc := t.execs[v].pc))
            && (!InCheck(t.execs[v].pc) ==> t.execs[v] == Checked(s, v))
            && PcRank(t.execs[v].pc) < PcRank(s.execs[v].pc)
  {
    var pc := s.execs[v].pc;
    if pc.CvEnd? {
      assert Outlook(s, v) == pc.result;
    } else if pc.CvPrev? {
      assert Outlook(s, v) == Verdict(s, v, pc.next);
    }
  }

  // The execution after check_version.
  function Checked(s: State, v: int): Exec
    requires v in s.execs
  {
    if Outlook(s, v) == 0 then s.execs[v].(pc := TtlStart) else s.execs[v].(pc := Waiting, wait := WtStart)
  }

  lemma {:induction false} WalkCheck(env: Env, s: State, v: int) returns (actions: seq<Action>, t: State)
    requires Ready(s, v) && InCheck(s.execs[v].pc) && Outlook(s, v) in {0, 1}
    ensures Leads(env, s, actions, t) && Ready(t, v) && OnlyTouched(s, t, v)
    ensures RowLog(t, v - 1) == RowLog(s, v - 1) && t.data == s.data && t.history == s.history
    ensures t.execs[v] == Checked(s, v)
    decreases PcRank(s.execs[v].pc)
  {
    CheckTouches(s, v);
    CheckDecides(s, v);
    OneStep(env, s, Go(s, v));
    var u := Apply(s, Go(s, v));
    if InCheck(u.execs[v].pc) {
      var rest;
      rest, t := WalkCheck(env, u, v);
      Chained(env, s, [Go(s, v)], u, rest, t);
      actions := [Go(s, v)] + rest;
    } else {
      actions, t := [Go(s, v)], u;
    }
  }

  // The wait function reads a finish status and resumes its own execution.
  lemma WalkToResume(env: Env, s: State, v: int) returns (actions: seq<Action>, t: State)
    requires Ready(s, v) && v > 1 && s.execs[v].pc == Waiting && s.execs[v].wait == WtStart
    requires RowLog(s, v - 1) != [] && IsFinish(Last(RowLog(s, v - 1)).status)
    ensures Leads(env, s, actions, t) && Ready(t, v)
    ensures t == s.(rows := t.rows, resumed := s.resumed + {v},
                    execs := s.execs[v := s.execs[v].(wait := WtEnd, pull := PullResumed)])
    ensures forall k :: k != v ==> RowLog(t, k) == RowLog(s, k)
    ensures RowLog(t, v)[0] == RowLog(s, v)[0] && t.rows.Keys == s.rows.Keys
  {
    var a := AdvanceWait(v, true);
    var s1 := Apply(s, a);
    var s2 := Apply(s1, a);
    var s3 := Apply(s2, a);
    t := Apply(s3, a);
    OneStep(env, s, a);
    OneStep(env, s1, a);
    OneStep(env, s2, a);
    OneStep(env, s3, a);
    Chained(env, s, [a], s1, [a], s2);
    Chained(env, s2, [a], s3, [a], t);
    Chained(env, s, [a] + [a], s2, [a] + [a], t);
    actions := [a] + [a] + ([a] + [a]);
  }

  // ---------------------------------------------------------------- copied finish status

  ghost predicate VersionsInOrder(s: State) {
    forall i :: 0 <= i < |s.data| ==> s.data[i].version == i + 1
  }

  // After an update that copied `image` into the next row, some run that is calm in every
  // other respect applies versions out of order.
  ghost predicate OrderCanBreak(env: Env, s: State, image: Row, cmd: Command, duplicated: bool)
    requires Enabled(s, Insert(|s.rows|, cmd, Copied(image, duplicated)))
  {
    exists actions, t ::
      Leads(env, Apply(s, Insert(|s.rows|, cmd, Copied(image, duplicated))), actions, t) && !VersionsInOrder(t)
  }

  // Behind the copied row one more version is stored, and its execution starts.
  lemma OvertakerStarts(env: Env, s: State, image: Row, cmd: Command, duplicated: bool)
    returns (actions: seq<Action>, t: State)
    requires CalmEnv(env) && Calm(s) && |s.rows| >= 1
    requires image in RowLog(s, |s.rows|) && IsFinish(image.status)
    ensures Enabled(s, Insert(|s.rows|, cmd, Copied(image, duplicated)))
    ensures Leads(env, Apply(s, Insert(|s.rows|, cmd, Copied(image, duplicated))), actions, t)
    ensures var v := |s.rows| + 2;
            && Ready(t, v) && t.execs[v] == Exec(false, CvStart, Idle, PullPending, PushPending) && Outlook(t, v) == 1
            && RowLog(t, v - 1) != [] && IsFinish(Last(RowLog(t, v - 1)).status)
            && RowLog(t, v)[0].command.version == v && t.data == s.data && |s.data| == |s.rows|
  {
    var n := |s.rows|;
    var v := n + 2;
    assert RowOk(s, n, image) && RowOk(s, n, RowLog(s, n)[0]) && (n in s.execs ==> ExecOk(s, n, s.execs[n]));
    assert s.data[n - 1].version == n;
    var s0 := Apply(s, Insert(n, cmd, Copied(image, duplicated)));
    var s1 := Apply(s0, Insert(n + 1, cmd, Fresh));
    t := Apply(s1, Start(v));
    OneStep(env, s0, Insert(n + 1, cmd, Fresh));
    OneStep(env, s1, Start(v));
    Chained(env, s0, [Insert(n + 1, cmd, Fresh)], s1, [Start(v)], t);
    actions := [Insert(n + 1, cmd, Fresh)] + [Start(v)];
  }

  // An execution that takes a copied row for a finished predecessor, up to the write of the data
  // row.
  lemma Overtakes(env: Env, s: State, v: int) returns (actions: seq<Action>, t: State)
    requires Ready(s, v) && s.execs[v] == Exec(false, CvStart, Idle, PullPending, PushPending) && Outlook(s, v) == 1 && v > 1
    requires RowLog(s, v - 1) != [] && IsFinish(Last(RowLog(s, v - 1)).status)
    requires RowLog(s, v)[0].command.version == v
    ensures Leads(env, s, actions, t) && |t.data| == |s.data| + 1 && t.data[|s.data|].version == v
  {
    var check, s3 := WalkCheck(env, s, v);
    var wait, s4 := WalkToResume(env, s3, v);
    var rest;
    rest, t := WalkResumed(env, s4, v);
    Chained(env, s, check, s3, wait, s4);
    Chained(env, s, check + wait, s4, rest, t);
    actions := check + wait + rest;
  }

  // The run: one more update, whose execution overtakes the one of the copied row.
  lemma CopiedFinishOvertaken(env: Env, s: State, image: Row, cmd: Command, duplicated: bool)
    returns (actions: seq<Action>, t: State)
    requires CalmEnv(env) && Calm(s) && |s.rows| >= 1
    requires image in RowLog(s, |s.rows|) && IsFinish(image.status)
    ensures Enabled(s, Insert(|s.rows|, cmd, Copied(image, duplicated)))
    ensures Leads(env, Apply(s, Insert(|s.rows|, cmd, Copied(image, duplicated))), actions, t)
    ensures |t.data| == |s.rows| + 1 && t.data[|s.rows|].version == |s.rows| + 2
  {
    var n := |s.rows|;
    var v := n + 2;
    var begin, s2 := OvertakerStarts(env, s, image, cmd, duplicated);
    var s0 := Apply(s, Insert(n, cmd, Copied(image, duplicated)));
    var rest;
    rest, t := Overtakes(env, s2, v);
    Chained(env, s0, begin, s2, rest, t);
    actions := begin + rest;
  }

  // A version that was resumed, up to the write of the data row.
  lemma WalkResumed(env: Env, s: State, v: int) returns (actions: seq<Action>, t: State)
    requires Ready(s, v) && s.execs[v].pc.Waiting? && v in s.resumed
    ensures Leads(env, s, actions, t) && |t.data| == |s.data| + 1 && t.data[..|s.data|] == s.data
    ensures t.data[|s.data|].version == RowLog(s, v)[0].command.version
  {
    var u := Apply(s, Go(s, v));
    OneStep(env, s, Go(s, v));
    var rest;
    rest, t := WalkToSync(env, u, v);
    Chained(env, s, [Go(s, v)], u, rest, t);
    actions := [Go(s, v)] + rest;
  }

  lemma InTurn(env: Env, s: State, a: seq<Action>, s1: State, b: seq<Action>, s2: State,
               c: seq<Action>, s3: State, d: seq<Action>, t: State) returns (actions: seq<Action>)
    requires Leads(env, s, a, s1) && Leads(env, s1, b, s2) && Leads(env, s2, c, s3) && Leads(env, s3, d, t)
    ensures Leads(env, s, actions, t)
  {
    Chained(env, s, a, s1, b, s2);
    Chained(env, s, a + b, s2, c, s3);
    Chained(env, s, a + b + c, s3, d, t);
    actions := a + b + c + d;
  }

  lemma CleanCopyKeepsOrder(env: Env, s: State, image: Row, cmd: Command, duplicated: bool, actions: seq<Action>, t: State)
    requires CalmEnv(env) && Calm(s) && Enabled(s, Insert(|s.rows|, cmd, Copied(image, duplicated))) && !IsFinish(image.status)
    requires Leads(env, Apply(s, Insert(|s.rows|, cmd, Copied(image, duplicated))), actions, t)
    ensures VersionsInOrder(t)
  {
    InsertKeeps(s, |s.rows|, cmd, Copied(image, duplicated));
    RunKeepsSafe(env, Apply(s, Insert(|s.rows|, cmd, Copied(image, duplicated))), actions);
  }

  // In-order application, exactly: in every state, a partial update or a duplicate of the last
  // row can lead to out-of-order application if and only if the status it copies is a finish
  // status.
  lemma OrderBreaksIffFinishCopied(env: Env, s: State, image: Row, cmd: Command, duplicated: bool)
    requires CalmEnv(env) && Reachable(env, s) && |s.rows| >= 1 && image in RowLog(s, |s.rows|)
    ensures Enabled(s, Insert(|s.rows|, cmd, Copied(image, duplicated)))
    ensures OrderCanBreak(env, s, image, cmd, duplicated) <==> IsFinish(image.status)
  {
    ReachableCalm(env, s);
    var first := Insert(|s.rows|, cmd, Copied(image, duplicated));
    assert |s.rows| in s.rows && |s.rows| + 1 !in s.rows;
    if IsFinish(image.status) {
      var actions, t := CopiedFinishOvertaken(env, s, image, cmd, duplicated);
      assert Leads(env, Apply(s, first), actions, t);
    } else {
      forall actions, t | Leads(env, Apply(s, first), actions, t) ensures VersionsInOrder(t) {
        CleanCopyKeepsOrder(env, s, image, cmd, duplicated, actions, t);
      }
    }
  }

  // And the current image of the last row of an idle chain always carries such a status, so
  // an update that copies what a current read returns is never safe from being overtaken.
  lemma IdleChainShowsFinish(env: Env, s: State)
    requires CalmEnv(env) && Reachable(env, s) && AllComplete(s) && |s.rows| >= 1
    ensures RowLog(s, |s.rows|) != [] && IsFinish(Last(RowLog(s, |s.rows|)).status)
  {
    ReachableCalm(env, s);
    var n := |s.rows|;
    assert Complete(s, n) && Linked(s, n, {}) && CalmExec(s.execs[n]);
    assert n + 1 !in s.rows;
    assert n + 1 in s.execs ==> ExecOk(s, n + 1, s.execs[n + 1]);
  }

  // ---------------------------------------------------------------- unsettled wait function

  // Calm in every respect, except that a wait function may write its last status late.
  const HASTY: Env := Env(true, false, true, true, true, true)

  // The data row is written; `finish` starts.
  lemma WalkToFinish(s: State, v: int) returns (actions: seq<Action>, t: State)
    requires Ready(s, v) && s.execs[v].pc == SyncEnd
    ensures Leads(HASTY, s, actions, t) && Ready(t, v)
    ensures t == s.(rows := t.rows, execs := s.execs[v := s.execs[v].(pc := FinRead)])
    ensures OnlyTouched(s, t, v) && RowLog(t, v - 1) == RowLog(s, v - 1)
    ensures Last(RowLog(t, v)).status == At(Finish, Started)
  {
    var s1 := Apply(s, Go(s, v));
    t := Apply(s1, Go(s1, v));
    OneStep(HASTY, s, Go(s, v));
    OneStep(HASTY, s1, Go(s1, v));
    Chained(HASTY, s, [Go(s, v)], s1, [Go(s1, v)], t);
    actions := [Go(s, v)] + [Go(s1, v)];
  }

  // Three versions are stored; 3 is suspended and has not stored its token yet.
  ghost predicate ThirdWaits(s: State) {
    && s.rows.Keys == {1, 2, 3}
    && RowLog(s, 1) != [] && RowLog(s, 2) != [] && RowLog(s, 3) != []
    && 3 in s.execs && s.execs[3] == Exec(false, Waiting, WtToken, PullPending, PushPending)
    && 3 !in s.resumed && Last(RowLog(s, 3)).token == None
  }

  ghost predicate SecondIs(s: State, pc: Pc, wait: WaitPc, pull: Pull, push: Push) {
    2 in s.execs && s.execs[2] == Exec(false, pc, wait, pull, push)
  }

  lemma ThreeVersions(cmd: Command) returns (actions: seq<Action>, t: State)
    ensures Leads(HASTY, Init, actions, t)
    ensures t.rows.Keys == {1, 2, 3} && t.execs.Keys == {2, 3} && t.data == [] && t.resumed == {}
    ensures forall k :: 1 <= k <= 3 ==> RowLog(t, k) == [Row(cmd.(version := k), Unset, None, false)]
    ensures forall k :: 2 <= k <= 3 ==> t.execs[k] == Exec(false, CvStart, Idle, PullPending, PushPending)
  {
    var s1 := Apply(Init, Insert(0, cmd, Fresh));
    var s2 := Apply(s1, Insert(1, cmd, Fresh));
    var s3 := Apply(s2, Insert(2, cmd, Fresh));
    var s4 := Apply(s3, Start(2));
    t := Apply(s4, Start(3));
    OneStep(HASTY, Init, Insert(0, cmd, Fresh));
    OneStep(HASTY, s1, Insert(1, cmd, Fresh));
    OneStep(HASTY, s2, Insert(2, cmd, Fresh));
    OneStep(HASTY, s3, Start(2));
    OneStep(HASTY, s4, Start(3));
    Chained(HASTY, Init, [Insert(0, cmd, Fresh)], s1, [Insert(1, cmd, Fresh)], s2);
    Chained(HASTY, s2, [Insert(2, cmd, Fresh)], s3, [Start(2)], s4);
    actions := [Insert(0, cmd, Fresh)] + [Insert(1, cmd, Fresh)] + ([Insert(2, cmd, Fresh)] + [Start(2)]);
    Chained(HASTY, Init, [Insert(0, cmd, Fresh)] + [Insert(1, cmd, Fresh)], s2, [Insert(2, cmd, Fresh)] + [Start(2)], s4);
    Chained(HASTY, Init, actions, s4, [Start(3)], t);
    actions := actions + [Start(3)];
  }

  // Versions 2 and 3 are suspended behind version 1, whose execution has not started.
  lemma TwoWaiters(cmd: Command) returns (actions: seq<Action>, t: State)
    ensures Leads(HASTY, Init, actions, t) && ThirdWaits(t)
    ensures SecondIs(t, Waiting, WtStart, PullPending, PushPending) && 1 !in t.execs
    ensures t.data == [] && RowLog(t, 1) == [Row(cmd.(version := 1), Unset, None, false)]
  {
    var a, s := ThreeVersions(cmd);
    assert RowLog(s, 2) != [] && RowLog(s, 3) != [] && RowLog(s, 1) != [];
    var b, s1 := WalkCheck(HASTY, s, 2);
    var c, s2 := WalkCheck(HASTY, s1, 3);
    t := Apply(s2, AdvanceWait(3, true));
    OneStep(HASTY, s2, AdvanceWait(3, true));
    Chained(HASTY, Init, a, s, b, s1);
    Chained(HASTY, s1, c, s2, [AdvanceWait(3, true)], t);
    Chained(HASTY, Init, a + b, s1, c + [AdvanceWait(3, true)], t);
    actions := a + b + (c + [AdvanceWait(3, true)]);
  }

  // Version 1 reaches finish.
  lemma FirstFinishes(s: State) returns (actions: seq<Action>, t: State)
    requires ThirdWaits(s) && SecondIs(s, Waiting, WtStart, PullPending, PushPending) && 1 !in s.execs
    requires s.data == [] && !RowLog(s, 1)[0].sync
    ensures Leads(HASTY, s, actions, t) && ThirdWaits(t)
    ensures SecondIs(t, Waiting, WtStart, PullPending, PushPending)
    ensures Last(RowLog(t, 1)).status == At(Finish, Started)
  {
    var s1 := Apply(s, Start(1));
    OneStep(HASTY, s, Start(1));
    var a, s2 := WalkCheck(HASTY, s1, 1);
    var b, s3 := WalkToSync(HASTY, s2, 1);
    var c;
    c, t := WalkToFinish(s3, 1);
    Chained(HASTY, s, [Start(1)], s1, a, s2);
    Chained(HASTY, s2, b, s3, c, t);
    Chained(HASTY, s, [Start(1)] + a, s2, b + c, t);
    actions := [Start(1)] + a + (b + c);
  }

  // Version 2 resumes itself and goes on, its wait function still unsettled.
  lemma SecondResumes(s: State) returns (actions: seq<Action>, t: State)
    requires ThirdWaits(s) && SecondIs(s, Waiting, WtStart, PullPending, PushPending)
    requires Last(RowLog(s, 1)).status == At(Finish, Started)
    ensures Leads(HASTY, s, actions, t) && ThirdWaits(t) && Ready(t, 2)
    ensures Passed(t.execs[2].pc) && !Applied(t.execs[2].pc)
    ensures SecondIs(t, t.execs[2].pc, WtEnd, PullResumed, PushPending)
  {
    var a, s1 := WalkToResume(HASTY, s, 2);
    t := Apply(s1, Go(s1, 2));
    OneStep(HASTY, s1, Go(s1, 2));
    Chained(HASTY, s, a, s1, [Go(s1, 2)], t);
    actions := a + [Go(s1, 2)];
  }

  // And runs up to its push.
  lemma SecondPushes(s: State) returns (actions: seq<Action>, t: State)
    requires ThirdWaits(s) && SecondIs(s, Waiting, WtStart, PullPending, PushPending)
    requires Last(RowLog(s, 1)).status == At(Finish, Started)
    ensures Leads(HASTY, s, actions, t) && ThirdWaits(t)
    ensures SecondIs(t, FinRead, WtEnd, PullResumed, PushPending)
  {
    var a, s2 := SecondResumes(s);
    var b, s3 := WalkToSync(HASTY, s2, 2);
    var c;
    c, t := WalkToFinish(s3, 2);
    Chained(HASTY, s, a, s2, b, s3);
    Chained(HASTY, s, a + b, s3, c, t);
    actions := a + b + c;
  }

  // The late status write of its wait function then hides `finish` from version 3.
  lemma LateWriteHidesFinish(s: State) returns (actions: seq<Action>, t: State)
    requires ThirdWaits(s) && SecondIs(s, FinRead, WtEnd, PullResumed, PushPending)
    ensures Leads(HASTY, s, actions, t) && Stranded(t, 2)
    ensures t.execs[2].push == PushNothing && t.execs[3].pull == PullEarly
  {
    var s1 := Apply(s, Go(s, 2));
    OneStep(HASTY, s, Go(s, 2));
    var s2 := Apply(s1, AdvanceWait(2, true));
    OneStep(HASTY, s1, AdvanceWait(2, true));
    var s3 := Apply(s2, AdvanceWait(3, true));
    OneStep(HASTY, s2, AdvanceWait(3, true));
    t := Apply(s3, AdvanceWait(3, true));
    OneStep(HASTY, s3, AdvanceWait(3, true));
    Chained(HASTY, s, [Go(s, 2)], s1, [AdvanceWait(2, true)], s2);
    Chained(HASTY, s2, [AdvanceWait(3, true)], s3, [AdvanceWait(3, true)], t);
    actions := [Go(s, 2)] + [AdvanceWait(2, true)] + ([AdvanceWait(3, true)] + [AdvanceWait(3, true)]);
    Chained(HASTY, s, [Go(s, 2)] + [AdvanceWait(2, true)], s2, [AdvanceWait(3, true)] + [AdvanceWait(3, true)], t);
  }

  // Without the assumption that the wait function settles first, a wake-up can be lost
  // although no read and no resume call fails.
  lemma UnsettledWaitLosesWakeUp(cmd: Command)
    ensures exists s :: Reachable(HASTY, s) && Stranded(s, 2) && NothingFailed(s, 2)
  {
    var a, s1 := TwoWaiters(cmd);
    var b, s2 := FirstFinishes(s1);
    var c, s3 := SecondPushes(s2);
    var d, t := LateWriteHidesFinish(s3);
    Chained(HASTY, Init, a, s1, b, s2);
    Chained(HASTY, Init, a + b, s2, c, s3);
    Chained(HASTY, Init, a + b + c, s3, d, t);
    assert Reachable(HASTY, t) && NothingFailed(t, 2);
  }

  // A less demanding environment allows every run of a more demanding one.
  predicate Weaker(weak: Env, strong: Env) {
    && (weak.cleanCopies ==> strong.cleanCopies) && (weak.settledWaits ==> strong.settledWaits)
    && (weak.currentCopies ==> strong.currentCopies) && (weak.currentSyncs ==> strong.currentSyncs) && (weak.reliable ==> strong.reliable)
    && (weak.asyncOnly ==> strong.asyncOnly)
  }

  lemma {:induction false} WeakerAllowsRun(weak: Env, strong: Env, s: State, actions: seq<Action>)
    requires Weaker(weak, strong) && RunFrom(strong, s, actions).Some?
    ensures RunFrom(weak, s, actions) == RunFrom(strong, s, actions)
    decreases |actions|
  {
    if actions != [] {
      WeakerAllowsRun(weak, strong, Apply(s, actions[0]), actions[1..]);
    }
  }

  ghost predicate CanStrand(env: Env) {
    exists s, v :: Reachable(env, s) && Stranded(s, v) && NothingFailed(s, v)
  }

  // Exactly when a wake-up can be lost although nothing fails: with clean copies, in every
  // environment that lets the wait function write its last status late, and in no other.
  lemma StrandsIffWaitsUnsettled(env: Env)
    requires env.cleanCopies
    ensures CanStrand(env) <==> !env.settledWaits
  {
    if env.settledWaits {
      forall s, v | Reachable(env, s) && Stranded(s, v) ensures !NothingFailed(s, v) {
        NoLostWakeUp(env, s, v);
      }
    } else {
      var nobody := Stamp(None, None, None);
      var cmd := Command(1, Business("", "", "", "", "", None, None, None), None, None, nobody, nobody);
      UnsettledWaitLosesWakeUp(cmd);
      var s :| Reachable(HASTY, s) && Stranded(s, 2) && NothingFailed(s, 2);
      var actions :| RunFrom(HASTY, Init, actions) == Some(s);
      WeakerAllowsRun(env, HASTY, Init, actions);
      assert Reachable(env, s);
    }
  }

  // ---------------------------------------------------------------- which finish strands

  // A wait function beside an execution that is no longer suspended writes its last status.
  lemma {:induction false} SettleWait(env: Env, s: State, v: int) returns (actions: seq<Action>, t: State)
    requires v in s.execs && RowLog(s, v) != [] && s.execs[v].wait !in {Idle, WtDone} && !s.execs[v].pc.Waiting?
    ensures Leads(env, s, actions, t) && v in t.execs
    ensures t == s.(rows := t.rows, execs := s.execs[v := s.execs[v].(wait := WtDone, pull := t.execs[v].pull)])
    ensures forall k :: k != v ==> RowLog(t, k) == RowLog(s, k)
    ensures RowLog(t, v) != [] && Last(RowLog(t, v)).status == At(WaitPrevCommand, Finished)
    decreases WaitRank(s.execs[v].wait)
  {
    var a := AdvanceWait(v, true);
    var u := Apply(s, a);
    OneStep(env, s, a);
    if s.execs[v].wait.WtEnd? {
      actions, t := [a], u;
    } else {
      var rest;
      rest, t := SettleWait(env, u, v);
      Chained(env, s, [a], u, rest, t);
      actions := [a] + rest;
    }
  }

  // The state of the version that will wait: suspended, its token not stored.
  ghost predicate NewWaiter(s: State, w: int, wait: WaitPc) {
    && w in s.execs && s.execs[w] == Exec(false, Waiting, wait, PullPending, PushPending) && w !in s.resumed
    && RowLog(s, w) != [] && Last(RowLog(s, w)).token == None
  }

  // Behind version v, the last one, a new version reads the data row late and is suspended.
  lemma WaiterAppears(env: Env, s: State, v: int, cmd: Command) returns (actions: seq<Action>, t: State)
    requires Safe(s) && v in s.execs && s.execs[v].pc.FinStart? && v + 1 !in s.rows
    ensures Leads(env, s, actions, t) && NewWaiter(t, v + 1, WtStart)
    ensures v in t.execs && t.execs[v] == s.execs[v] && RowLog(t, v) == RowLog(s, v) && RowLog(s, v) != []
  {
    var w := v + 1;
    assert ExecOk(s, v, s.execs[v]);
    assert w in s.execs ==> ExecOk(s, w, s.execs[w]);
    var s1 := Apply(s, Insert(v, cmd, Fresh));
    var s2 := Apply(s1, Start(w));
    OneStep(env, s, Insert(v, cmd, Fresh));
    OneStep(env, s1, Start(w));
    Chained(env, s, [Insert(v, cmd, Fresh)], s1, [Start(w)], s2);
    var b;
    b, t := LateCheck(env, s2, w);
    Chained(env, s, [Insert(v, cmd, Fresh)] + [Start(w)], s2, b, t);
    actions := [Insert(v, cmd, Fresh)] + [Start(w)] + b;
  }

  // check_version reads a version too old, and looks for the previous command.
  lemma ReadsLate(env: Env, s: State, w: int) returns (actions: seq<Action>, t: State)
    requires Ready(s, w) && s.execs[w] == Exec(false, CvStart, Idle, PullPending, PushPending) && w !in s.resumed
    requires w >= 2 && w - 1 in s.rows && Last(RowLog(s, w)).token == None
    requires |s.data| == w - 1 && forall i :: 0 <= i < |s.data| ==> s.data[i].version == i + 1
    ensures Leads(env, s, actions, t)
    ensures Ready(t, w) && t.execs[w] == s.execs[w].(pc := CvPrev(w - 1)) && w !in t.resumed
    ensures OnlyTouched(s, t, w) && RowLog(t, w - 1) == RowLog(s, w - 1)
  {
    var late := Advance(w, w - 2, true, None);
    var s1 := Apply(s, Go(s, w));
    t := Apply(s1, late);
    OneStep(env, s, Go(s, w));
    OneStep(env, s1, late);
    Chained(env, s, [Go(s, w)], s1, [late], t);
    actions := [Go(s, w)] + [late];
  }

  // check_version of w reads the data row before its last change.
  lemma LateCheck(env: Env, s: State, w: int) returns (actions: seq<Action>, t: State)
    requires Ready(s, w) && s.execs[w] == Exec(false, CvStart, Idle, PullPending, PushPending) && w !in s.resumed
    requires w >= 2 && w - 1 in s.rows && Last(RowLog(s, w)).token == None
    requires |s.data| == w - 1 && forall i :: 0 <= i < |s.data| ==> s.data[i].version == i + 1
    ensures Leads(env, s, actions, t) && NewWaiter(t, w, WtStart)
    ensures forall k :: k in s.execs && k != w ==> k in t.execs && t.execs[k] == s.execs[k]
    ensures forall k :: k != w ==> RowLog(t, k) == RowLog(s, k)
  {
    var first, s2 := ReadsLate(env, s, w);
    var s3 := Apply(s2, Go(s2, w));
    t := Apply(s3, Go(s3, w));
    OneStep(env, s2, Go(s2, w));
    OneStep(env, s3, Go(s3, w));
    Chained(env, s2, [Go(s2, w)], s3, [Go(s3, w)], t);
    Chained(env, s, first, s2, [Go(s2, w)] + [Go(s3, w)], t);
    actions := first + ([Go(s2, w)] + [Go(s3, w)]);
  }

  // Version v starts finish early and finds no token of its successor.
  lemma EarlyPush(s: State, v: int) returns (actions: seq<Action>, t: State)
    requires v in s.execs && RowLog(s, v) != [] && s.execs[v].pc.FinStart? && NewWaiter(s, v + 1, WtStart)
    ensures Leads(HASTY, s, actions, t) && NewWaiter(t, v + 1, WtStart)
    ensures v in t.execs && t.execs[v] == s.execs[v].(pc := FinEnd, push := PushNothing) && RowLog(t, v) != []
  {
    var s1 := Apply(s, Go(s, v));
    t := Apply(s1, Go(s1, v));
    OneStep(HASTY, s, Go(s, v));
    OneStep(HASTY, s1, Go(s1, v));
    Chained(HASTY, s, [Go(s, v)], s1, [Go(s1, v)], t);
    actions := [Go(s, v)] + [Go(s1, v)];
  }

  // The successor stores its token and looks: the status of v does not show finish.
  lemma LooksTooLate(env: Env, s: State, v: int) returns (actions: seq<Action>, t: State)
    requires v >= 1 && v in s.execs && RowLog(s, v) != [] && !IsFinish(Last(RowLog(s, v)).status)
    requires s.execs[v].pc.FinEnd? && !s.execs[v].sync && s.execs[v].push.PushNothing? && NewWaiter(s, v + 1, WtStart)
    ensures Leads(env, s, actions, t) && Stranded(t, v) && NothingFailed(t, v)
  {
    var w := v + 1;
    var a := AdvanceWait(w, true);
    var s1 := Apply(s, a);
    var s2 := Apply(s1, a);
    t := Apply(s2, a);
    OneStep(env, s, a);
    OneStep(env, s1, a);
    OneStep(env, s2, a);
    assert RowLog(s2, v) == RowLog(s, v);
    Chained(env, s, [a], s1, [a], s2);
    Chained(env, s, [a] + [a], s2, [a], t);
    actions := [a] + [a] + [a];
  }

  // Every finish of the last version that starts early can strand the next version.
  lemma EarlyFinishStrands(s: State, v: int, cmd: Command) returns (actions: seq<Action>, t: State)
    requires Safe(s) && v in s.execs && !s.execs[v].sync && s.execs[v].pc.FinStart? && v + 1 !in s.rows
    requires s.execs[v].wait !in {Idle, WtDone}
    ensures Leads(HASTY, s, actions, t) && Stranded(t, v) && NothingFailed(t, v)
  {
    assert ExecOk(s, v, s.execs[v]);
    var a, s1 := WaiterAppears(HASTY, s, v, cmd);
    var b, s2 := EarlyPush(s1, v);
    var c, s3 := SettleWait(HASTY, s2, v);
    assert v >= 1 && NewWaiter(s3, v + 1, WtStart);
    var d;
    d, t := LooksTooLate(HASTY, s3, v);
    actions := InTurn(HASTY, s, a, s1, b, s2, c, s3, d, t);
  }

  // Version v has not started finish early, and cannot any more.
  ghost predicate Punctual(s: State, v: int, hasty: set<int>) {
    && v !in hasty && v in s.execs
    && (InFinish(s.execs[v]) || s.execs[v].pc.Stopped? || (s.execs[v].pc.FinStart? && s.execs[v].wait in {Idle, WtDone}))
  }

  lemma StepKeepsPunctual(env: Env, s: State, a: Action, v: int, hasty: set<int>)
    requires Safe(s) && Punctual(s, v, hasty) && !s.execs[v].sync && Enabled(s, a) && Admits(env, s, a)
    ensures Punctual(Apply(s, a), v, HastyAfter(s, a, hasty)) && !Apply(s, a).execs[v].sync
  {
    assert ExecOk(s, v, s.execs[v]) && v in s.rows;
  }

  lemma {:induction false} RunKeepsPunctual(env: Env, s: State, actions: seq<Action>, v: int, hasty: set<int>)
    requires env.cleanCopies && Safe(s) && Punctual(s, v, hasty) && !s.execs[v].sync && RunFrom(env, s, actions).Some?
    ensures v !in HastyIn(env, s, actions, hasty)
    decreases |actions|
  {
    if actions != [] {
      StepKeepsSafe(env, s, actions[0]);
      StepKeepsPunctual(env, s, actions[0], v, hasty);
      RunKeepsPunctual(env, Apply(s, actions[0]), actions[1..], v, HastyAfter(s, actions[0], hasty));
    }
  }

  predicate BeganFinish(s: State, v: int) {
    v in s.execs && !s.execs[v].sync && (InFinish(s.execs[v]) || s.execs[v].pc.Stopped?)
  }

  // Only versions that have started finish are hasty.
  ghost predicate HastyStarted(s: State, hasty: set<int>) {
    forall v :: v in hasty ==> BeganFinish(s, v)
  }

  lemma StepKeepsOneStarted(env: Env, s: State, a: Action, v: int)
    requires Safe(s) && Enabled(s, a) && Admits(env, s, a)
    requires BeganFinish(s, v) || (a.Advance? && a.version == v && s.execs[v].pc.FinStart? && !s.execs[v].sync)
    ensures BeganFinish(Apply(s, a), v)
  {
    assert ExecOk(s, v, s.execs[v]) && v in s.rows;
  }

  lemma StepKeepsStarted(env: Env, s: State, a: Action, hasty: set<int>)
    requires Safe(s) && HastyStarted(s, hasty) && Enabled(s, a) && Admits(env, s, a)
    requires forall v :: v in s.execs && s.execs[v].pc.FinStart? ==> !s.execs[v].sync
    ensures HastyStarted(Apply(s, a), HastyAfter(s, a, hasty))
  {
    forall v | v in HastyAfter(s, a, hasty) ensures BeganFinish(Apply(s, a), v) {
      StepKeepsOneStarted(env, s, a, v);
    }
  }

  lemma {:induction false} RunKeepsStarted(env: Env, s: State, actions: seq<Action>, hasty: set<int>)
    requires env.cleanCopies && Handshake(s, hasty) && HastyStarted(s, hasty) && RunFrom(env, s, actions).Some?
    ensures HastyStarted(RunFrom(env, s, actions).value, HastyIn(env, s, actions, hasty))
    decreases |actions|
  {
    if actions != [] {
      assert forall v :: v in s.execs ==> Linked(s, v, hasty);
      StepKeepsHandshake(env, s, actions[0], hasty);
      StepKeepsStarted(env, s, actions[0], hasty);
      RunKeepsStarted(env, Apply(s, actions[0]), actions[1..], HastyAfter(s, actions[0], hasty));
    }
  }

  ghost predicate CanStillStrand(env: Env, s: State, v: int) {
    exists actions, t :: Leads(env, s, actions, t) && Stranded(t, v) && NothingFailed(t, v)
  }

  // Exactly which finish can strand, at the moment the last version is about to start it: the
  // next version can be stranded although nothing fails if and only if the wait function of this
  // one still has a status to write.
  lemma FinishStrandsIffUnsettled(env: Env, s: State, v: int)
    requires env.cleanCopies && !env.settledWaits && Reachable(env, s)
    requires v in s.execs && s.execs[v].pc.FinStart? && v + 1 !in s.rows
    ensures CanStillStrand(env, s, v) <==> s.execs[v].wait !in {Idle, WtDone}
  {
    var front :| RunFrom(env, Init, front) == Some(s);
    RunKeepsHandshake(env, Init, front, {});
    RunKeepsStarted(env, Init, front, {});
    var hasty := HastyIn(env, Init, front, {});
    assert Linked(s, v, hasty) && !s.execs[v].sync;
    if s.execs[v].wait !in {Idle, WtDone} {
      assert ExecOk(s, v, s.execs[v]);
      var actions, t := EarlyFinishStrands(s, v, RowLog(s, v)[0].command);
      WeakerAllowsRun(env, HASTY, s, actions);
      assert Leads(env, s, actions, t);
    } else {
      assert v !in hasty;
      forall actions, t | Leads(env, s, actions, t) && Stranded(t, v) ensures !NothingFailed(t, v) {
        RunKeepsHandshake(env, s, actions, hasty);
        RunKeepsPunctual(env, s, actions, v, hasty);
        StrandedNeedsFailure(t, v, HastyIn(env, s, actions, hasty));
      }
    }
  }

  // ---------------------------------------------------------------- stale reads of sync_data

  // Calm, with current reads of history_copy, but not of sync_data.
  const LAGGING: Env := Env(true, true, true, false, true, true)

  // From the gate to the read of sync_data.
  lemma {:induction false} WalkToSyncRead(env: Env, s: State, v: int) returns (actions: seq<Action>, t: State)
    requires Ready(s, v) && Passed(s.execs[v].pc) && !Applied(s.execs[v].pc) && !s.execs[v].pc.SyncPut?
    ensures Leads(env, s, actions, t) && OnlyTouched(s, t, v) && Ready(t, v)
    ensures t.execs[v] == s.execs[v].(pc := SyncRead) && t.data == s.data
    decreases PcRank(s.execs[v].pc)
  {
    if s.execs[v].pc.SyncRead? {
      actions, t := [], s;
    } else {
      var u := Apply(s, Go(s, v));
      GoTouches(s, v);
      GoGoesOn(s, v);
      OneStep(env, s, Go(s, v));
      BeforeSyncRead(s, v);
      var rest;
      rest, t := WalkToSyncRead(env, u, v);
      Chained(env, s, [Go(s, v)], u, rest, t);
      actions := [Go(s, v)] + rest;
    }
  }

  lemma BeforeSyncRead(s: State, v: int)
    requires Ready(s, v) && Passed(s.execs[v].pc) && !Applied(s.execs[v].pc)
    requires !s.execs[v].pc.SyncPut? && !s.execs[v].pc.SyncRead?
    ensures CanAdvance(s, v, Go(s, v).seen) && !Apply(s, Go(s, v)).execs[v].pc.SyncPut?
  {
  }

  // sync_data, from its read to its write.
  lemma SyncWrites(env: Env, s: State, v: int, seen: nat) returns (actions: seq<Action>, t: State)
    requires Ready(s, v) && s.execs[v].pc == SyncRead && seen <= |s.data| && (env.currentSyncs ==> seen == |s.data|)
    ensures Leads(env, s, actions, t)
    ensures t.data == s.data + [Project(RowLog(s, v)[0].command, Seen(s.data, seen))]
    ensures t.rows == s.rows && t.execs.Keys == s.execs.Keys
  {
    var read := Advance(v, seen, true, None);
    var u := Apply(s, read);
    t := Apply(u, Go(u, v));
    OneStep(env, s, read);
    OneStep(env, u, Go(u, v));
    Chained(env, s, [read], u, [Go(u, v)], t);
    actions := [read] + [Go(u, v)];
  }

  // Version 1 is stored, and its execution starts.
  lemma FirstStarts(env: Env, cmd: Command) returns (actions: seq<Action>, t: State)
    ensures Leads(env, Init, actions, t) && Ready(t, 1) && t.execs[1].pc == CvStart && Outlook(t, 1) == 0 && t.data == []
    ensures t.rows == map[1 := [Row(cmd.(version := 1), Unset, None, false)]] && t.execs.Keys == {1}
  {
    var s1 := Apply(Init, Insert(0, cmd, Fresh));
    t := Apply(s1, Start(1));
    OneStep(env, Init, Insert(0, cmd, Fresh));
    OneStep(env, s1, Start(1));
    Chained(env, Init, [Insert(0, cmd, Fresh)], s1, [Start(1)], t);
    var row := Row(cmd.(version := 1), Unset, None, false);
    assert RowLog(Init, 1) + [row] == [row];
    assert t.rows == map[1 := [row]];
    actions := [Insert(0, cmd, Fresh)] + [Start(1)];
  }

  // Version 1 is applied.
  lemma FirstIsApplied(env: Env, cmd: Command) returns (actions: seq<Action>, t: State)
    ensures Leads(env, Init, actions, t)
    ensures t.rows.Keys == {1} && t.execs.Keys == {1} && RowLog(t, 1) != []
    ensures RowLog(t, 1)[0] == Row(cmd.(version := 1), Unset, None, false)
    ensures t.data == [Project(cmd.(version := 1), None)]
  {
    var begin, s1 := FirstStarts(env, cmd);
    var a, s2 := WalkCheck(env, s1, 1);
    var b, s3 := WalkToSyncRead(env, s2, 1);
    var c;
    c, t := SyncWrites(env, s3, 1, 0);
    Chained(env, Init, begin, s1, a, s2);
    Chained(env, s2, b, s3, c, t);
    Chained(env, Init, begin + a, s2, b + c, t);
    actions := begin + a + (b + c);
  }

  // Version 2 is about to read the data row for its own.
  lemma SecondReads(env: Env, s: State, cmd: Command) returns (actions: seq<Action>, t: State)
    requires s.rows.Keys == {1} && s.execs.Keys == {1} && RowLog(s, 1) != [] && |s.data| == 1 && s.data[0].version == 1
    ensures Leads(env, s, actions, t) && Ready(t, 2) && t.execs[2].pc == SyncRead && t.data == s.data
    ensures RowLog(t, 2)[0] == Row(cmd.(version := 2), Unset, None, false)
    ensures RowLog(t, 1) != [] && RowLog(t, 1)[0].command == RowLog(s, 1)[0].command
  {
    var s1 := Apply(s, Insert(1, cmd, Fresh));
    var s2 := Apply(s1, Start(2));
    OneStep(env, s, Insert(1, cmd, Fresh));
    OneStep(env, s1, Start(2));
    Chained(env, s, [Insert(1, cmd, Fresh)], s1, [Start(2)], s2);
    var begin := [Insert(1, cmd, Fresh)] + [Start(2)];
    var a, s3 := WalkCheck(env, s2, 2);
    var b;
    b, t := WalkToSyncRead(env, s3, 2);
    Chained(env, s, begin, s2, a, s3);
    Chained(env, s, begin + a, s3, b, t);
    actions := begin + a + b;
  }

  // A read of sync_data that finds no row: the second version replaces the created* fields of
  // the first by its own, and the data row is not the fold of the chain.
  lemma MissedRowReplacesCreated(first: Command, second: Command)
    requires FirstStamp(first.created, second.created) != second.created
    ensures exists s :: Reachable(LAGGING, s) && |s.data| == 2
              && Inserted(s, 1) == Some(first.(version := 1)) && Inserted(s, 2) == Some(second.(version := 2))
              && s.data[1].created == second.created
              && Fold([first.(version := 1), second.(version := 2)]).value.created == FirstStamp(first.created, second.created)
              && Before(s.data, 2) != Fold([first.(version := 1), second.(version := 2)])
  {
    var a, s1 := FirstIsApplied(LAGGING, first);
    var b, s2 := SecondReads(LAGGING, s1, second);
    var c, t := SyncWrites(LAGGING, s2, 2, 0);
    Chained(LAGGING, Init, a, s1, b, s2);
    Chained(LAGGING, Init, a + b, s2, c, t);
    assert Reachable(LAGGING, t);
    FoldOfTwo(first.(version := 1), second.(version := 2));
  }

  lemma FoldOfTwo(a: Command, b: Command)
    ensures Fold([a, b]) == Some(Project(b, Some(Project(a, None))))
  {
    assert [a, b][..1] == [a] && [a][..0] == [];
    assert Fold([a]) == Some(Project(a, None));
  }
}
