/**
 Read your writes: a user's publishAsync leaves a short-lived session row, and getItem shows
 the user's own pending command until the data row has caught up with it.

 The state is what one user and one module see: the command chains and the data rows of all
 items, and the user's session rows. None of the reads of getItem is consistent: every past
 value of a data row or of a session row may still be read, or none.
 */
module ReadYourWrites {
  import opened Wrappers
  import opened CommandModel
  import K = Keys

  datatype Key = Key(pk: string, sk: string)

  // The tenant of a session row and the item id in it.
  type Slot = (string, string)

  // `sessions` logs the values of every session row; None is a row that was deleted or has
  // expired. `mine` is the version of the user's latest command on an item. `lost` are the slots
  // whose latest session row was not written, has expired, or was deleted although the data row
  // had not caught up with it.
  datatype State = State(
    chains: map<Key, seq<Command>>, data: map<Key, seq<DataRow>>, sessions: map<Slot, seq<Option<int>>>,
    mine: map<Key, int>, lost: set<Slot>)

  const Init := State(map[], map[], map[], map[], {})

  datatype Action =
    | Publish(key: Key, cmd: Command, own: bool, recorded: bool)
    | Sync(key: Key, row: DataRow)
    | Expire(slot: Slot)
    | Read(key: Key, look: Look)

  // The answers of the tables while one getItem runs: which value of the session row it reads,
  // which value of the data row its first and its second read return (0 for none), and whether
  // the command row is visible.
  datatype Look = Look(session: nat, first: nat, visible: bool, second: nat)

  function Log<T>(logs: map<Key, seq<T>>, key: Key): seq<T> {
    if key in logs then logs[key] else []
  }

  function Nth<T>(log: seq<T>, n: nat): Option<T>
    requires n <= |log|
  {
    if n == 0 then None else Some(log[n - 1])
  }

  // Sessions exist only under a partition key that names a tenant.
  predicate Tracked(key: Key) {
    K.TenantCode(key.pk).Some? && K.TenantCode(key.pk).value != ""
  }

  function SlotFor(key: Key, id: string): Slot
    requires Tracked(key)
  {
    (K.TenantCode(key.pk).value, id)
  }

  function SlotOf(key: Key): Slot
    requires Tracked(key)
  {
    SlotFor(key, K.GenerateId(key.pk, key.sk))
  }

  function VersionOf(row: Option<DataRow>): int {
    if row.Some? then row.value.version else 0
  }

  function SlotLog(s: State, slot: Slot): seq<Option<int>> {
    if slot in s.sessions then s.sessions[slot] else []
  }

  function Latest(log: seq<Option<int>>): Option<int> {
    if log == [] then None else log[|log| - 1]
  }

  function Written(s: State, slot: Slot, value: Option<int>): map<Slot, seq<Option<int>>> {
    s.sessions[slot := SlotLog(s, slot) + [value]]
  }

  // ---------------------------------------------------------------- getItem

  function Merged(session: Option<int>, chain: seq<Command>, visible: bool, first: Option<DataRow>, second: Option<DataRow>)
    : Option<DataRow>
  {
    if session.None? then second
    else if first.Some? && first.value.version >= session.value then first
    else if visible && 1 <= session.value <= |chain| then Some(Project(chain[session.value - 1], first))
    else second
  }

  // The session row is deleted once the data row has caught up with what was read of it.
  predicate Drops(session: Option<int>, first: Option<DataRow>) {
    session.Some? && first.Some? && first.value.version >= session.value
  }

  class Repository {
    var sessions: map<Slot, int>

    // getItem, for a known caller, with the answers of the tables as parameters.
    method GetItem(key: Key, session: Option<int>, chain: seq<Command>, visible: bool,
                   first: Option<DataRow>, second: Option<DataRow>)
      returns (row: Option<DataRow>)
      modifies this
      ensures row == Merged(if Tracked(key) then session else None, chain, visible, first, second)
      ensures sessions == if Tracked(key) && Drops(session, first) then old(sessions) - {SlotOf(key)} else old(sessions)
    {
      var tenantCode := K.TenantCode(key.pk);
      if tenantCode.Some? && tenantCode.value != "" {
        var itemId := K.GenerateId(key.pk, key.sk);
        if session.Some? {
          if first.Some? && first.value.version >= session.value {
            sessions := sessions - {(tenantCode.value, itemId)};
            return first;
          }
          if visible && 1 <= session.value <= |chain| {
            return Some(Project(chain[session.value - 1], first));
          }
        }
      }
      return second;
    }
  }

  // ---------------------------------------------------------------- runs

  predicate CanLook(s: State, key: Key, look: Look) {
    && look.first <= |Log(s.data, key)| && look.second <= |Log(s.data, key)|
    && (Tracked(key) ==> look.session <= |SlotLog(s, SlotOf(key))|)
  }

  // What a read sees of the session row of an item.
  function SessionSeen(s: State, key: Key, look: Look): Option<int>
    requires CanLook(s, key, look)
  {
    if !Tracked(key) || look.session == 0 then None else SlotLog(s, SlotOf(key))[look.session - 1]
  }

  // The session row of an item as it is.
  function SessionNow(s: State, key: Key): Option<int> {
    if Tracked(key) then Latest(SlotLog(s, SlotOf(key))) else None
  }

  function ReadItem(s: State, key: Key, look: Look): Option<DataRow>
    requires CanLook(s, key, look)
  {
    var log := Log(s.data, key);
    Merged(SessionSeen(s, key, look), Log(s.chains, key), look.visible, Nth(log, look.first), Nth(log, look.second))
  }

  predicate Enabled(s: State, a: Action) {
    match a
    case Publish(key, cmd, _, _) => cmd.version == |Log(s.chains, key)| + 1
    case Sync(key, row) => row.version == |Log(s.data, key)| + 1 <= |Log(s.chains, key)|
    case Expire(slot) => true
    case Read(key, look) => CanLook(s, key, look)
  }

  function Apply(s: State, a: Action): (t: State)
    requires Enabled(s, a)
    ensures t.chains == if a.Publish? then s.chains[a.key := Log(s.chains, a.key) + [a.cmd]] else s.chains
    ensures t.data == if a.Sync? then s.data[a.key := Log(s.data, a.key) + [a.row]] else s.data
  {
    match a
    case Publish(key, cmd, own, recorded) =>
      var t := s.(chains := s.chains[key := Log(s.chains, key) + [cmd]]);
      if !own then t
      else
        var u := t.(mine := t.mine[key := cmd.version]);
        if !Tracked(key) then u
        else
          var slot := SlotFor(key, cmd.business.id);
          if recorded then u.(sessions := Written(u, slot, Some(cmd.version)), lost := u.lost - {slot})
          else u.(lost := u.lost + {slot})
    case Sync(key, row) => s.(data := s.data[key := Log(s.data, key) + [row]])
    case Expire(slot) => s.(sessions := Written(s, slot, None), lost := s.lost + {slot})
    case Read(key, look) =>
      if !Drops(SessionSeen(s, key, look), Nth(Log(s.data, key), look.first)) then s
      else
        var slot, now := SlotOf(key), SessionNow(s, key);
        s.(sessions := Written(s, slot, None),
           lost := if now.Some? && now.value > |Log(s.data, key)| then s.lost + {slot} else s.lost)
  }

  // The items of the module: different items have different ids, and the user's own commands
  // carry the id of their item.
  ghost predicate DistinctSlots(keys: set<Key>) {
    && (forall key :: key in keys ==> Tracked(key))
    && (forall a, b :: a in keys && b in keys && SlotOf(a) == SlotOf(b) ==> a == b)
  }

  predicate Admits(keys: set<Key>, a: Action) {
    match a
    case Publish(key, cmd, own, _) => key in keys && (own ==> cmd.business.id == K.GenerateId(key.pk, key.sk))
    case Sync(key, _) => key in keys
    case Expire(_) => true
    case Read(key, _) => key in keys
  }

  ghost predicate RunFrom(keys: set<Key>, s: State, run: seq<Action>, t: State)
    decreases |run|
  {
    if run == [] then s == t
    else Admits(keys, run[0]) && Enabled(s, run[0]) && RunFrom(keys, Apply(s, run[0]), run[1..], t)
  }

  // ---------------------------------------------------------------- the invariant

  predicate NumberedAt(chain: seq<Command>, data: seq<DataRow>) {
    && |data| <= |chain|
    && (forall i :: 0 <= i < |chain| ==> chain[i].version == i + 1)
    && (forall i :: 0 <= i < |data| ==> data[i].version == i + 1)
  }

  ghost predicate Numbered(s: State) {
    forall key :: NumberedAt(Log(s.chains, key), Log(s.data, key))
  }

  function Mine(s: State, key: Key): int {
    if key in s.mine then s.mine[key] else 0
  }

  // No value a session row ever had is beyond the user's latest command.
  predicate Bounded(log: seq<Option<int>>, bound: int) {
    forall i :: 0 <= i < |log| && log[i].Some? ==> 1 <= log[i].value <= bound
  }

  // The session row of an item is the user's latest command on it; when the row is gone for
  // no reason recorded in `lost`, the data row holds that command or a later one.
  predicate Faithful(s: State, key: Key)
    requires Tracked(key)
  {
    && 0 <= Mine(s, key) <= |Log(s.chains, key)| && (key in s.mine ==> s.mine[key] > 0)
    && Bounded(SlotLog(s, SlotOf(key)), Mine(s, key))
    && (SlotOf(key) !in s.lost ==>
          if SessionNow(s, key).Some? then SessionNow(s, key).value == Mine(s, key)
          else Mine(s, key) <= |Log(s.data, key)|)
  }

  ghost predicate Inv(keys: set<Key>, s: State)
    requires DistinctSlots(keys)
  {
    Numbered(s) && forall key :: key in keys ==> Faithful(s, key)
  }

  lemma StepKeepsNumbers(s: State, a: Action)
    requires Numbered(s) && Enabled(s, a)
    ensures Numbered(Apply(s, a))
  {
    var t := Apply(s, a);
    forall key ensures NumberedAt(Log(t.chains, key), Log(t.data, key)) {
      assert NumberedAt(Log(s.chains, key), Log(s.data, key));
      ChainsAfter(s, a, key);
      DataAfter(s, a, key);
    }
  }

  lemma ChainsAfter(s: State, a: Action, key: Key)
    requires Enabled(s, a)
    ensures Log(Apply(s, a).chains, key) ==
            if a.Publish? && a.key == key then Log(s.chains, key) + [a.cmd] else Log(s.chains, key)
  {
    var t := Apply(s, a);
    assert t.chains == if a.Publish? then s.chains[a.key := Log(s.chains, a.key) + [a.cmd]] else s.chains;
  }

  lemma DataAfter(s: State, a: Action, key: Key)
    requires Enabled(s, a)
    ensures Log(Apply(s, a).data, key) ==
            if a.Sync? && a.key == key then Log(s.data, key) + [a.row] else Log(s.data, key)
  {
    var t := Apply(s, a);
    assert t.data == if a.Sync? then s.data[a.key := Log(s.data, a.key) + [a.row]] else s.data;
  }

  // A step that leaves everything about an item as it was, but for longer chains and data logs.
  lemma UntouchedStaysFaithful(s: State, t: State, key: Key)
    requires Tracked(key) && Faithful(s, key)
    requires |Log(s.chains, key)| <= |Log(t.chains, key)| && |Log(s.data, key)| <= |Log(t.data, key)|
    requires Mine(t, key) == Mine(s, key) && (key in t.mine <==> key in s.mine)
    requires SlotLog(t, SlotOf(key)) == SlotLog(s, SlotOf(key))
    requires SlotOf(key) in s.lost ==> SlotOf(key) in t.lost
    ensures Faithful(t, key)
  {
  }

  // The user's own command on an item, and its session row.
  lemma OwnPublishIsFaithful(s: State, t: State, key: Key, version: int, recorded: bool)
    requires Tracked(key) && Faithful(s, key) && version == |Log(s.chains, key)| + 1 == |Log(t.chains, key)|
    requires key in t.mine && t.mine[key] == version
    requires SlotLog(t, SlotOf(key)) == if recorded then SlotLog(s, SlotOf(key)) + [Some(version)] else SlotLog(s, SlotOf(key))
    requires !recorded ==> SlotOf(key) in t.lost
    ensures Faithful(t, key)
  {
  }

  lemma PublishKeepsFaith(keys: set<Key>, s: State, a: Action, key: Key)
    requires DistinctSlots(keys) && Inv(keys, s) && Admits(keys, a) && Enabled(s, a) && key in keys && a.Publish?
    ensures Faithful(Apply(s, a), key)
  {
    var t := Apply(s, a);
    assert Faithful(s, key) && Tracked(a.key);
    if a.key == key && a.own {
      assert SlotFor(key, a.cmd.business.id) == SlotOf(key);
      OwnPublishIsFaithful(s, t, key, a.cmd.version, a.recorded);
    } else {
      assert a.key != key ==> SlotOf(a.key) != SlotOf(key);
      UntouchedStaysFaithful(s, t, key);
    }
  }

  lemma ReadKeepsFaith(keys: set<Key>, s: State, a: Action, key: Key)
    requires DistinctSlots(keys) && Inv(keys, s) && Admits(keys, a) && Enabled(s, a) && key in keys && a.Read?
    ensures Faithful(Apply(s, a), key)
  {
    var t := Apply(s, a);
    assert Faithful(s, key) && Tracked(a.key);
    if a.key != key {
      assert SlotOf(a.key) != SlotOf(key);
      UntouchedStaysFaithful(s, t, key);
    } else if t != s {
      assert SlotLog(t, SlotOf(key)) == SlotLog(s, SlotOf(key)) + [None];
    }
  }

  lemma StepKeepsFaith(keys: set<Key>, s: State, a: Action, key: Key)
    requires DistinctSlots(keys) && Inv(keys, s) && Admits(keys, a) && Enabled(s, a) && key in keys
    ensures Faithful(Apply(s, a), key)
  {
    if a.Publish? {
      PublishKeepsFaith(keys, s, a, key);
    } else if a.Read? {
      ReadKeepsFaith(keys, s, a, key);
    } else {
      assert Faithful(s, key) && NumberedAt(Log(s.chains, key), Log(s.data, key));
    }
  }

  lemma {:induction false} RunKeepsInv(keys: set<Key>, s: State, run: seq<Action>, t: State)
    requires DistinctSlots(keys) && Inv(keys, s) && RunFrom(keys, s, run, t)
    ensures Inv(keys, t)
    decreases |run|
  {
    if run != [] {
      StepKeepsNumbers(s, run[0]);
      forall key | key in keys ensures Faithful(Apply(s, run[0]), key) {
        StepKeepsFaith(keys, s, run[0], key);
      }
      RunKeepsInv(keys, Apply(s, run[0]), run[1..], t);
    }
  }

  // ---------------------------------------------------------------- main results

  // A read that sees nothing of the session row shows version `mine` if its second read of the
  // data row does. A read that sees a version of the session row shows `mine` if the first read
  // does, or, short of that version, if it sees the command row and that version is `mine`.
  predicate Shows(seen: Option<int>, look: Look, mine: int) {
    if seen.None? then look.second >= mine
    else if look.first >= seen.value then look.first >= mine
    else if look.visible then seen.value == mine
    else look.second >= mine
  }

  lemma FaithfulInRun(keys: set<Key>, run: seq<Action>, s: State, key: Key)
    requires DistinctSlots(keys) && RunFrom(keys, Init, run, s) && key in keys
    ensures Tracked(key) && Faithful(s, key) && NumberedAt(Log(s.chains, key), Log(s.data, key))
  {
    RunKeepsInv(keys, Init, run, s);
  }

  lemma MergedShows(seen: Option<int>, chain: seq<Command>, data: seq<DataRow>, look: Look, mine: int)
    requires NumberedAt(chain, data) && 1 <= mine <= |chain| && look.first <= |data| && look.second <= |data|
    requires seen.Some? ==> 1 <= seen.value <= mine
    ensures var row := Merged(seen, chain, look.visible, Nth(data, look.first), Nth(data, look.second));
            && (VersionOf(row) >= mine <==> Shows(seen, look, mine))
            && (seen == Some(mine) && look.visible && look.first < mine ==>
                  row == Some(Project(chain[mine - 1], Nth(data, look.first))))
  {
  }

  // Exactly when getItem shows the user's latest write, over every run and for any answers of
  // the tables. When the session read is current and the row was not lost, that is: the row is
  // there and either the command row is visible or the first read is recent enough, or else the
  // second read is recent enough. When the data row lags, the answer is then the projection of
  // exactly that command.
  lemma ReadsOwnWriteIff(keys: set<Key>, run: seq<Action>, s: State, key: Key, look: Look)
    requires DistinctSlots(keys) && RunFrom(keys, Init, run, s)
    requires key in keys && key in s.mine && CanLook(s, key, look)
    ensures var row, seen, mine := ReadItem(s, key, look), SessionSeen(s, key, look), s.mine[key];
            && (VersionOf(row) >= mine <==> Shows(seen, look, mine))
            && (seen == SessionNow(s, key) && SlotOf(key) !in s.lost ==>
                  (VersionOf(row) >= mine <==>
                     look.second >= mine || (SessionNow(s, key).Some? && (look.visible || look.first >= mine))))
            && (seen == Some(mine) && look.visible && look.first < mine ==>
                  1 <= mine <= |Log(s.chains, key)|
                  && row == Some(Project(Log(s.chains, key)[mine - 1], Nth(Log(s.data, key), look.first))))
  {
    FaithfulInRun(keys, run, s, key);
    MergedShows(SessionSeen(s, key, look), Log(s.chains, key), Log(s.data, key), look, s.mine[key]);
  }

  // With a current read of the session row, no staleness of the data row hides the user's write
  // while the row lives; with current reads of the data row too, it is not hidden afterwards.
  lemma OwnWritesAreRead(keys: set<Key>, run: seq<Action>, s: State, key: Key, look: Look)
    requires DistinctSlots(keys) && RunFrom(keys, Init, run, s)
    requires key in keys && key in s.mine && SlotOf(key) !in s.lost && CanLook(s, key, look)
    requires look.visible && SessionSeen(s, key, look) == SessionNow(s, key)
    requires SessionNow(s, key).Some? || look.second == |Log(s.data, key)|
    ensures VersionOf(ReadItem(s, key, look)) >= s.mine[key]
  {
    FaithfulInRun(keys, run, s, key);
    ReadsOwnWriteIff(keys, run, s, key, look);
  }

  // A session row that the data row has not caught up with is deleted by a read of its item if
  // and only if the read sees an older version of it, and the data row at that version; a
  // current read of the session row never deletes it.
  lemma UnabsorbedRowIsDroppedIff(keys: set<Key>, run: seq<Action>, s: State, a: Action, key: Key)
    requires DistinctSlots(keys) && RunFrom(keys, Init, run, s)
    requires key in keys && SlotOf(key) !in s.lost && SessionNow(s, key).Some?
    requires Mine(s, key) > |Log(s.data, key)|
    requires a.Read? && Admits(keys, a) && Enabled(s, a)
    ensures SessionNow(Apply(s, a), key).None? <==>
              a.key == key && SessionSeen(s, key, a.look).Some?
              && SessionSeen(s, key, a.look).value <= a.look.first
              && SessionSeen(s, key, a.look).value < SessionNow(s, key).value
    ensures SessionNow(Apply(s, a), key).None? <==> SlotOf(key) in Apply(s, a).lost
  {
    FaithfulInRun(keys, run, s, key);
    FaithfulInRun(keys, run, s, a.key);
    if a.key != key {
      assert SlotOf(a.key) != SlotOf(key);
      OtherItemStays(s, a, key);
    } else {
      DropsAt(SessionSeen(s, key, a.look), Log(s.data, key), a.look.first);
      ReadDrops(s, a, key);
    }
  }

  lemma OtherItemStays(s: State, a: Action, key: Key)
    requires a.Read? && Enabled(s, a) && Tracked(key) && Tracked(a.key) && SlotOf(a.key) != SlotOf(key)
    ensures SessionNow(Apply(s, a), key) == SessionNow(s, key)
    ensures SlotOf(key) in Apply(s, a).lost <==> SlotOf(key) in s.lost
  {
  }

  lemma ReadDrops(s: State, a: Action, key: Key)
    requires a.Read? && a.key == key && Enabled(s, a) && Tracked(key) && SessionNow(s, key).Some?
    requires SessionNow(s, key).value > |Log(s.data, key)| && SlotOf(key) !in s.lost
    ensures var drops := Drops(SessionSeen(s, key, a.look), Nth(Log(s.data, key), a.look.first));
            && (SessionNow(Apply(s, a), key).None? <==> drops) && (SlotOf(key) in Apply(s, a).lost <==> drops)
  {
  }

  lemma DropsAt(seen: Option<int>, data: seq<DataRow>, first: nat)
    requires first <= |data| && (forall i :: 0 <= i < |data| ==> data[i].version == i + 1)
    requires seen.Some? ==> seen.value >= 1
    ensures Drops(seen, Nth(data, first)) <==> seen.Some? && seen.value <= first
  {
  }

  // Ids of items under two-segment partition keys are distinct.
  lemma TwoSegmentKeysAreDistinct(kind: string, tenant: string, sk: string, kind': string, tenant': string, sk': string)
    requires K.KEY_SEPARATOR !in kind && K.KEY_SEPARATOR !in tenant && K.VER_SEPARATOR !in sk
    requires K.KEY_SEPARATOR !in kind' && K.KEY_SEPARATOR !in tenant' && K.VER_SEPARATOR !in sk'
    ensures var a, b := Key(kind + [K.KEY_SEPARATOR] + tenant, sk), Key(kind' + [K.KEY_SEPARATOR] + tenant', sk');
            K.GenerateId(a.pk, a.sk) == K.GenerateId(b.pk, b.sk) <==> a == b
  {
    K.TwoSegmentIdReadsBack(kind, tenant, sk);
    K.TwoSegmentIdReadsBack(kind', tenant', sk');
  }

  // ---------------------------------------------------------------- limits

  // Only a command with the id of its item reaches the session row that getItem looks for.
  lemma OnlyTheItemsIdIsFound(s: State, key: Key, cmd: Command)
    requires Tracked(key) && Enabled(s, Publish(key, cmd, true, true)) && SessionNow(s, key) != Some(cmd.version)
    ensures SessionNow(Apply(s, Publish(key, cmd, true, true)), key) == Some(cmd.version)
            <==> cmd.business.id == K.GenerateId(key.pk, key.sk)
  {
  }

  // Whatever came before, a read with a current session read shows the command that the user has
  // just published if and only if the command carries the id of its item.
  lemma OwnIdIsNeeded(keys: set<Key>, run: seq<Action>, s: State, key: Key, cmd: Command, look: Look)
    requires DistinctSlots(keys) && RunFrom(keys, Init, run, s) && key in keys
    requires Enabled(s, Publish(key, cmd, true, true))
    requires var t := Apply(s, Publish(key, cmd, true, true));
             CanLook(t, key, look) && look.visible && SessionSeen(t, key, look) == SessionNow(t, key)
    ensures VersionOf(ReadItem(Apply(s, Publish(key, cmd, true, true)), key, look)) >= cmd.version
            <==> cmd.business.id == K.GenerateId(key.pk, key.sk)
  {
    FaithfulInRun(keys, run, s, key);
    OnlyTheItemsIdIsFound(s, key, cmd);
    var a := Publish(key, cmd, true, true);
    ChainsAfter(s, a, key);
    DataAfter(s, a, key);
    var t, data := Apply(s, a), Log(s.data, key);
    var seen := SessionNow(t, key);
    assert seen == Some(cmd.version) || seen == SessionNow(s, key);
    MergedShows(seen, Log(t.chains, key), data, look, cmd.version);
    assert ReadItem(t, key, look) == Merged(seen, Log(t.chains, key), true, Nth(data, look.first), Nth(data, look.second));
  }

  function SomeCommand(key: Key, version: int): Command {
    Command(version, Business(K.GenerateId(key.pk, key.sk), "", "", "", "", None, None, None), None, None,
            Stamp(None, None, None), Stamp(None, None, None))
  }

  function SomeRow(key: Key): DataRow {
    Project(SomeCommand(key, 1), None)
  }

  function OwnPublish(key: Key, version: int): Action {
    Publish(key, SomeCommand(key, version), true, true)
  }

  lemma {:induction false} RunSnoc(keys: set<Key>, s: State, run: seq<Action>, t: State, a: Action)
    requires RunFrom(keys, s, run, t) && Admits(keys, a) && Enabled(t, a)
    ensures RunFrom(keys, s, run + [a], Apply(t, a))
    decreases |run|
  {
    if run == [] {
      assert ([] + [a])[1..] == [];
    } else {
      assert (run + [a])[1..] == run[1..] + [a];
      RunSnoc(keys, Apply(s, run[0]), run[1..], t, a);
    }
  }

  // A read that misses the session row, although it is there, and a data row that lags: the
  // user's write is not shown.
  lemma MissedSessionHidesWrite(key: Key)
    requires Tracked(key)
    ensures exists s ::
              && RunFrom({key}, Init, [OwnPublish(key, 1)], s) && DistinctSlots({key})
              && key in s.mine && s.mine[key] == 1 && SlotOf(key) !in s.lost && SessionNow(s, key) == Some(1)
              && CanLook(s, key, Look(0, 0, true, 0)) && ReadItem(s, key, Look(0, 0, true, 0)) == None
  {
    var a := OwnPublish(key, 1);
    var s := Apply(Init, a);
    assert [a][1..] == [];
    assert RunFrom({key}, s, [], s);
    assert RunFrom({key}, Init, [a], s);
    assert ReadItem(s, key, Look(0, 0, true, 0)) == None;
  }

  // A read that sees an older session row shows the older version and deletes the newer row:
  // from then on even current reads do not show the user's write while the data row lags.
  lemma StaleSessionDropsNewer(key: Key)
    requires Tracked(key)
    ensures var stale, current := Look(1, 1, true, 1), Look(3, 1, true, 1);
            var run := [OwnPublish(key, 1), Sync(key, SomeRow(key)), OwnPublish(key, 2)];
            exists s, t ::
              && RunFrom({key}, Init, run, s) && RunFrom({key}, Init, run + [Read(key, stale)], t) && DistinctSlots({key})
              && key in s.mine && s.mine[key] == 2 && SessionNow(s, key) == Some(2) && SlotOf(key) !in s.lost
              && CanLook(s, key, stale) && VersionOf(ReadItem(s, key, stale)) == 1
              && SessionNow(t, key) == None && t.mine == s.mine && |Log(t.data, key)| == 1
              && CanLook(t, key, current) && SessionSeen(t, key, current) == SessionNow(t, key)
              && VersionOf(ReadItem(t, key, current)) == 1
  {
    var stale, current := Look(1, 1, true, 1), Look(3, 1, true, 1);
    var s := TwoVersions(key);
    var t := Apply(s, Read(key, stale));
    RunSnoc({key}, Init, [OwnPublish(key, 1), Sync(key, SomeRow(key)), OwnPublish(key, 2)], s, Read(key, stale));
    assert SlotLog(t, SlotOf(key)) == [Some(1), Some(2), None];
    assert VersionOf(ReadItem(s, key, stale)) == 1 && VersionOf(ReadItem(t, key, current)) == 1;
  }

  // The user's first command on an item is applied.
  function FirstApplied(key: Key): State
    requires Tracked(key)
  {
    State(map[key := [SomeCommand(key, 1)]], map[key := [SomeRow(key)]], map[SlotOf(key) := [Some(1)]], map[key := 1], {})
  }

  lemma FirstIsApplied(keys: set<Key>, key: Key)
    requires Tracked(key) && key in keys
    ensures RunFrom(keys, Init, [OwnPublish(key, 1), Sync(key, SomeRow(key))], FirstApplied(key))
  {
    var a, b := OwnPublish(key, 1), Sync(key, SomeRow(key));
    var s1 := Apply(Init, a);
    RunSnoc(keys, Init, [], Init, a);
    RunSnoc(keys, Init, [a], s1, b);
    assert [] + [a] == [a] && [a] + [b] == [a, b];
    assert s1 == State(map[key := [SomeCommand(key, 1)]], map[], map[SlotOf(key) := [Some(1)]], map[key := 1], {}) by {
      assert [] + [SomeCommand(key, 1)] == [SomeCommand(key, 1)] && [] + [Some(1)] == [Some(1)];
      assert s1.lost == {};
    }
    assert [] + [SomeRow(key)] == [SomeRow(key)];
    assert Apply(s1, b) == FirstApplied(key);
  }

  // And the second is pending.
  lemma TwoVersions(key: Key) returns (s: State)
    requires Tracked(key)
    ensures RunFrom({key}, Init, [OwnPublish(key, 1), Sync(key, SomeRow(key)), OwnPublish(key, 2)], s)
    ensures Log(s.chains, key) == [SomeCommand(key, 1), SomeCommand(key, 2)] && Log(s.data, key) == [SomeRow(key)]
    ensures SlotLog(s, SlotOf(key)) == [Some(1), Some(2)] && s.lost == {} && s.mine == map[key := 2]
  {
    FirstIsApplied({key}, key);
    var a, b, c := OwnPublish(key, 1), Sync(key, SomeRow(key)), OwnPublish(key, 2);
    s := Apply(FirstApplied(key), c);
    RunSnoc({key}, Init, [a, b], FirstApplied(key), c);
    assert [a, b] + [c] == [a, b, c];
  }

  // Once a read has deleted the session row, a later read of a stale data row goes back before
  // the user's write, however current its read of the session row.
  lemma StaleReadAfterDropGoesBack(key: Key)
    requires Tracked(key)
    ensures var later := Look(2, 1, true, 0);
            var run := [OwnPublish(key, 1), Sync(key, SomeRow(key)), Read(key, Look(1, 1, true, 1))];
            exists s ::
              && RunFrom({key}, Init, run, s) && DistinctSlots({key})
              && key in s.mine && s.mine[key] == 1 && SlotOf(key) !in s.lost
              && CanLook(s, key, later) && SessionSeen(s, key, later) == SessionNow(s, key)
              && ReadItem(s, key, later) == None
  {
    var later := Look(2, 1, true, 0);
    var a, b, c := OwnPublish(key, 1), Sync(key, SomeRow(key)), Read(key, Look(1, 1, true, 1));
    FirstIsApplied({key}, key);
    var s := Apply(FirstApplied(key), c);
    RunSnoc({key}, Init, [a, b], FirstApplied(key), c);
    assert [a, b] + [c] == [a, b, c];
    assert SlotLog(s, SlotOf(key)) == [Some(1), None];
    assert ReadItem(s, key, later) == None;
  }

  // Two items with the same id share a session row, and reading one of them deletes the row of
  // the other: the user's write is then not shown, although every session read was current.
  lemma SharedIdHidesWrite(a: Key, b: Key)
    requires a != b && Tracked(a) && Tracked(b) && SlotOf(a) == SlotOf(b)
    ensures var run := [OwnPublish(a, 1), Sync(a, SomeRow(a)), OwnPublish(b, 1), Read(a, Look(2, 1, true, 1))];
            var later := Look(3, 0, true, 0);
            exists s ::
              && RunFrom({a, b}, Init, run, s)
              && b in s.mine && s.mine[b] == 1 && SlotOf(b) !in s.lost && |Log(s.data, b)| == 0
              && CanLook(s, b, later) && SessionSeen(s, b, later) == SessionNow(s, b) && ReadItem(s, b, later) == None
  {
    var read := Read(a, Look(2, 1, true, 1));
    var s := BothPublished(a, b);
    RunSnoc({a, b}, Init, [OwnPublish(a, 1), Sync(a, SomeRow(a)), OwnPublish(b, 1)], s, read);
    assert [OwnPublish(a, 1), Sync(a, SomeRow(a)), OwnPublish(b, 1)] + [read]
        == [OwnPublish(a, 1), Sync(a, SomeRow(a)), OwnPublish(b, 1), read];
    assert SlotLog(Apply(s, read), SlotOf(b)) == [Some(1), Some(1), None];
    assert ReadItem(Apply(s, read), b, Look(3, 0, true, 0)) == None;
  }

  // The first item's command is applied, the second item's is pending.
  lemma BothPublished(a: Key, b: Key) returns (s: State)
    requires a != b && Tracked(a) && Tracked(b) && SlotOf(a) == SlotOf(b)
    ensures RunFrom({a, b}, Init, [OwnPublish(a, 1), Sync(a, SomeRow(a)), OwnPublish(b, 1)], s)
    ensures Log(s.data, a) == [SomeRow(a)] && Log(s.data, b) == [] && s.mine == map[a := 1, b := 1] && s.lost == {}
    ensures SlotLog(s, SlotOf(a)) == [Some(1), Some(1)]
  {
    var p, q, r := OwnPublish(a, 1), Sync(a, SomeRow(a)), OwnPublish(b, 1);
    FirstIsApplied({a, b}, a);
    s := Apply(FirstApplied(a), r);
    RunSnoc({a, b}, Init, [p, q], FirstApplied(a), r);
    assert [p, q] + [r] == [p, q, r];
  }

  // Such items exist as soon as partition keys differ in their number of segments.
  lemma SharedIdsExist()
    ensures var a, b := Key("T#t", "x#t#y"), Key("T#t#x#t", "y");
            a != b && Tracked(a) && Tracked(b) && SlotOf(a) == SlotOf(b)
  {
    K.LastIndexIs("T#t", '#', 1);
    K.LastIndexIs("T#t#x#t", '#', 5);
    assert K.RemoveVersion("x#t#y") == "x#t#y" && K.RemoveVersion("y") == "y";
    assert K.GenerateId("T#t", "x#t#y") == "T#t#x#t#y" == K.GenerateId("T#t#x#t", "y");
    assert "T#t"[2..] == "t" == "T#t#x#t"[6..];
  }
}
