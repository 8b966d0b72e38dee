/**
 The directory of files and folders: a forest in which every item names its parent, copies of
 the path to the root in `ancestors`, and roles inherited along that path.

 An operation reads data rows and publishes one command; a command becomes the data row of its
 item later. Items are never taken out of the table. None of the reads is consistent: a turn is
 an operation that sees some past version of each row, or none.
 */
module Directory {
  import opened Wrappers
  import K = Keys

  // ---------------------------------------------------------------- items

  datatype Role = READ | WRITE | DELETE | CHANGE_PERMISSION | TAKE_OWNERSHIP

  datatype PermissionKind = GENERAL | RESTRICTED | DOMAIN | TENANT

  datatype Grant = Grant(email: string, role: Role)

  datatype Permission = Permission(kind: PermissionKind, role: Option<Role>, domain: Option<string>, users: Option<seq<Grant>>)

  datatype Attributes = Attributes(
    parentId: Option<string>, ancestors: seq<string>, inheritance: Option<bool>, expires: Option<int>,
    permission: Option<Permission>, owner: string, s3Key: Option<string>)

  datatype Item = Item(name: string, isDeleted: bool, tenant: string, attributes: Attributes)

  datatype Key = Key(pk: string, sk: string)

  datatype User = User(email: string, tenant: string)

  // The parent, unless the attribute is missing or empty.
  function ParentOf(item: Item): Option<string> {
    if item.attributes.parentId == Some("") then None else item.attributes.parentId
  }

  // ---------------------------------------------------------------- the tables

  // The commands of every item, how many of them its data row has absorbed, and when the item
  // was made.
  datatype State = State(chains: map<Key, seq<Item>>, applied: map<Key, nat>, born: map<Key, nat>, clock: nat)

  const EMPTY := State(map[], map[], map[], 0)

  predicate Exists(s: State, key: Key) {
    key in s.chains && key in s.applied && 1 <= s.applied[key] <= |s.chains[key]|
  }

  function Data(s: State, key: Key): Item
    requires Exists(s, key)
  {
    s.chains[key][s.applied[key] - 1]
  }

  function ParentKey(s: State, key: Key): Option<Key>
    requires key in s.chains && |s.chains[key]| > 0
  {
    var p := ParentOf(s.chains[key][0]);
    if p.Some? then Some(Key(key.pk, p.value)) else None
  }

  // The item names one parent in all its versions: an older item under the same partition key.
  predicate RootedAt(s: State, key: Key)
    requires key in s.chains
  {
    && key in s.applied && key in s.born && s.born[key] < s.clock && key.sk != ""
    && |s.chains[key]| > 0 && s.applied[key] <= |s.chains[key]|
    && (forall v :: 0 <= v < |s.chains[key]| ==> ParentOf(s.chains[key][v]) == ParentOf(s.chains[key][0]))
    && (ParentKey(s, key).Some? ==>
          var parent := ParentKey(s, key).value;
          Exists(s, parent) && parent in s.born && s.born[parent] < s.born[key])
  }

  ghost predicate Forest(s: State) {
    && (forall key :: key in s.chains ==> RootedAt(s, key))
    && (forall a, b :: a in s.chains && b in s.chains && a.sk == b.sk ==> a == b)
  }

  // ---------------------------------------------------------------- roles

  // What follows the first `@`, up to the next.
  function DomainOf(email: string): Option<string> {
    var i := K.IndexFrom(email, '@', 0);
    if i == -1 then None
    else
      var j := K.IndexFrom(email, '@', i + 1);
      Some(if j == -1 then email[i + 1..] else email[i + 1..j])
  }

  function RoleOf(users: seq<Grant>, email: string): Option<Role> {
    if users == [] then None
    else if users[0].email == email then Some(users[0].role)
    else RoleOf(users[1..], email)
  }

  function CheckPermissionObject(p: Permission, tenant: string, user: User): Option<Role> {
    match p.kind
    case GENERAL => p.role
    case DOMAIN =>
      if p.domain.Some? && p.domain.value != "" && DomainOf(user.email) == p.domain then p.role else None
    case RESTRICTED => if p.users.Some? then RoleOf(p.users.value, user.email) else None
    case TENANT => if tenant == user.tenant then p.role else None
  }

  function EffectiveRole(s: State, key: Key, user: User, now: int): Option<Role>
    requires Forest(s)
    decreases if Exists(s, key) then s.born[key] + 1 else 0
  {
    if !Exists(s, key) then None
    else
      var item := Data(s, key);
      var attributes := item.attributes;
      var expired := attributes.permission.Some? && attributes.expires.Some? && attributes.expires.value <= now;
      var role := if attributes.permission.Some? then CheckPermissionObject(attributes.permission.value, item.tenant, user) else None;
      if expired then None
      else if role.Some? then role
      else if attributes.inheritance == Some(false) then None
      else if ParentOf(item).None? then None
      else
        assert ParentOf(item) == ParentOf(s.chains[key][0]);
        EffectiveRole(s, Key(key.pk, ParentOf(item).value), user, now)
  }

  predicate HasPermission(s: State, key: Key, required: set<Role>, user: User, now: int)
    requires Forest(s)
  {
    var role := EffectiveRole(s, key, user, now);
    role.Some? && role.value in required
  }

  const WRITERS := {WRITE, CHANGE_PERMISSION, TAKE_OWNERSHIP}

  // ---------------------------------------------------------------- operations

  datatype Error = NotFound | Forbidden | BadRequest | Conflict | TypeFault

  // Who calls, and when; the new sort key is a ULID, taken never to repeat.
  datatype Call = Call(tenant: string, now: int, sk: string)

  datatype NewItem = NewItem(
    name: string, parentId: Option<string>, ancestors: Option<seq<string>>, inheritance: Option<bool>, expires: Option<int>,
    permission: Option<Permission>, owner: string, s3Key: Option<string>)

  datatype Patch = Patch(
    parentId: Option<string>, ancestors: Option<seq<string>>, inheritance: Option<bool>, expires: Option<int>,
    permission: Option<Permission>)

  datatype Action =
    | Create(call: Call, input: NewItem)
    | Copy(call: Call, key: Key, path: string, email: string, parentId: Option<string>)
    | Move(call: Call, key: Key, email: string, parentId: Option<string>)
    | Update(call: Call, key: Key, email: string, name: Option<string>, isDeleted: Option<bool>, patch: Option<Patch>)
    | UpdatePermission(call: Call, key: Key, email: string, inheritance: Option<bool>, permission: Option<Permission>)
    | Rename(call: Call, key: Key, email: string, name: Option<string>)
    | Remove(call: Call, key: Key, email: string)
    | RestoreTemporary(call: Call, key: Key, email: string)
    | RestoreHistoryItem(call: Call, key: Key, email: string, version: int)
    | Sync(key: Key)

  // The command an operation publishes: a new item, or a new version of an item.
  datatype Command = Command(key: Key, item: Item)

  const PK_PREFIX := "DIRECTORY"

  function HomeOf(call: Call): string {
    PK_PREFIX + [K.KEY_SEPARATOR] + call.tenant
  }

  predicate TenantMatches(key: Key, call: Call) {
    var parts := K.Split(key.pk);
    |parts| == 2 && parts[1] == call.tenant
  }

  // The path to a new item below `parentId`; none is asked for at the root.
  function NewAncestors(s: State, pk: string, parentId: Option<string>): Result<seq<string>, Error> {
    if parentId.None? || parentId.value == "" then Success([])
    else if !Exists(s, Key(pk, parentId.value)) then Failure(NotFound)
    else Success(Data(s, Key(pk, parentId.value)).attributes.ancestors + [parentId.value])
  }

  // The deep merge of a new permission into an old one.
  function MergePermission(before: Option<Permission>, after: Permission): Permission {
    if before.None? then after
    else Permission(after.kind, OrElse(after.role, before.value.role), OrElse(after.domain, before.value.domain),
                    OrElse(after.users, before.value.users))
  }

  function Patched(a: Attributes, p: Patch): Attributes {
    a.(ancestors := if p.ancestors.Some? then p.ancestors.value else a.ancestors,
       inheritance := OrElse(p.inheritance, a.inheritance),
       expires := OrElse(p.expires, a.expires),
       permission := if p.permission.Some? then Some(MergePermission(a.permission, p.permission.value)) else a.permission)
  }

  // What an operation comes to, given the answer of its permission check if it gets that far.
  function Outcome(s: State, a: Action, permitted: bool): Result<Command, Error>
    requires !a.Sync?
  {
    match a
    case Create(call, input) =>
      var pk := HomeOf(call);
      var hasParent := input.parentId.Some? && input.parentId.value != "";
      if !hasParent && input.ancestors.None? then Failure(TypeFault)
      else
        var isRoot := !hasParent && input.ancestors.value == [];
        var parent := Key(pk, if input.parentId.Some? then input.parentId.value else "");
        if !isRoot && !permitted then Failure(Forbidden)
        else if !isRoot && !Exists(s, parent) then Failure(NotFound)
        else
          var ancestors := if isRoot then [] else Data(s, parent).attributes.ancestors + [parent.sk];
          Success(Command(Key(pk, call.sk), Item(input.name, false, call.tenant,
             Attributes(input.parentId, ancestors, input.inheritance, input.expires, input.permission, input.owner, input.s3Key))))

    case Copy(call, key, path, email, parentId) =>
      if !Exists(s, key) then Failure(NotFound)
      else
        var data, ancestors := Data(s, key), NewAncestors(s, HomeOf(call), parentId);
        if ancestors.Failure? then Failure(ancestors.error)
        else Success(Command(Key(HomeOf(call), call.sk), Item(data.name, false, call.tenant,
                data.attributes.(s3Key := Some(path + "/" + data.name), ancestors := ancestors.value,
                                 parentId := parentId, owner := email))))

    case Move(call, key, email, parentId) =>
      if !Exists(s, key) then Failure(NotFound)
      else if !permitted then Failure(Forbidden)
      else
        var data, ancestors := Data(s, key), NewAncestors(s, HomeOf(call), parentId);
        if ancestors.Failure? then Failure(ancestors.error)
        else if key.sk in ancestors.value then Failure(BadRequest)
        else Success(Command(Key(HomeOf(call), call.sk), Item(data.name, false, call.tenant,
                data.attributes.(ancestors := ancestors.value, parentId := parentId))))

    case Update(call, key, email, name, isDeleted, patch) =>
      if !TenantMatches(key, call) then Failure(BadRequest)
      else if !Exists(s, key) then Failure(NotFound)
      else if !permitted then Failure(Forbidden)
      else
        var data := Data(s, key);
        if patch.Some? && patch.value.parentId != data.attributes.parentId then Failure(BadRequest)
        else Success(Command(key, data.(name := if name.Some? then name.value else data.name,
                                   isDeleted := if isDeleted.Some? then isDeleted.value else data.isDeleted,
                                   attributes := if patch.Some? then Patched(data.attributes, patch.value) else data.attributes)))

    case UpdatePermission(call, key, email, inheritance, permission) =>
      if !TenantMatches(key, call) then Failure(BadRequest)
      else if !Exists(s, key) then Failure(NotFound)
      else if !permitted then Failure(Forbidden)
      else
        var data := Data(s, key);
        var merged := if permission.Some? then Some(MergePermission(data.attributes.permission, permission.value)) else None;
        Success(Command(key, data.(attributes := data.attributes.(inheritance := inheritance, permission := merged))))

    case Rename(call, key, email, name) =>
      if !Exists(s, key) then Failure(NotFound)
      else if !permitted then Failure(Forbidden)
      else
        var data := Data(s, key);
        Success(Command(key, data.(name := if name.Some? then name.value else data.name)))

    case Remove(call, key, email) =>
      if !TenantMatches(key, call) then Failure(BadRequest)
      else if !Exists(s, key) then Failure(NotFound)
      else if !permitted then Failure(Forbidden)
      else Success(Command(key, Data(s, key).(isDeleted := true)))

    case RestoreTemporary(call, key, email) =>
      if !Exists(s, key) then Failure(NotFound)
      else if !Data(s, key).isDeleted then Failure(BadRequest)
      else if !permitted then Failure(Forbidden)
      else Success(Command(key, Data(s, key).(isDeleted := false)))

    case RestoreHistoryItem(call, key, email, version) =>
      if key !in s.chains || !(1 <= version <= |s.chains[key]|) then Failure(NotFound)
      else if !permitted then Failure(Forbidden)
      else Success(Command(key, s.chains[key][version - 1].(isDeleted := false)))
  }

  // The permission that an operation asks for.
  function Required(a: Action): set<Role> {
    match a
    case Update(_, _, _, _, _, patch) =>
      {CHANGE_PERMISSION, TAKE_OWNERSHIP} + if patch.None? || patch.value.permission.None? then {WRITE} else {}
    case UpdatePermission(_, _, _, _, permission) => {CHANGE_PERMISSION, TAKE_OWNERSHIP} + if permission.None? then {WRITE} else {}
    case Remove(_, _, _) => {DELETE, TAKE_OWNERSHIP}
    case _ => WRITERS
  }

  // On the parent of a new item, or else on the item itself; copy asks for none.
  predicate Permitted(s: State, a: Action)
    requires Forest(s) && !a.Sync?
  {
    if a.Create? then
      var parent := Key(HomeOf(a.call), if a.input.parentId.Some? then a.input.parentId.value else "");
      HasPermission(s, parent, Required(a), User(a.input.owner, a.call.tenant), a.call.now)
    else
      HasPermission(s, a.key, Required(a), User(a.email, a.call.tenant), a.call.now)
  }

  function Decide(s: State, a: Action): Result<Command, Error>
    requires Forest(s) && !a.Sync?
  {
    Outcome(s, a, Permitted(s, a))
  }

  // publishAsync: a new item starts a chain; a new version follows the version of the data row,
  // unless it says nothing new or that place is taken.
  function Publish(s: State, c: Command): Result<State, Error> {
    if c.key !in s.chains then
      Success(State(s.chains[c.key := [c.item]], s.applied[c.key := 0], s.born[c.key := s.clock], s.clock + 1))
    else if !Exists(s, c.key) then Failure(Conflict)
    else if Data(s, c.key) == c.item then Success(s)
    else if s.applied[c.key] < |s.chains[c.key]| then Failure(Conflict)
    else Success(s.(chains := s.chains[c.key := s.chains[c.key] + [c.item]]))
  }

  // The next command of an item becomes its data row.
  function Absorb(s: State, key: Key): State {
    if key in s.chains && key in s.applied && s.applied[key] < |s.chains[key]|
    then s.(applied := s.applied[key := s.applied[key] + 1]) else s
  }

  predicate IsNew(a: Action) {
    a.Create? || a.Copy? || a.Move?
  }

  // ULIDs are not repeated.
  ghost predicate Admits(s: State, a: Action) {
    IsNew(a) ==> a.call.sk != "" && forall key :: key in s.chains ==> key.sk != a.call.sk
  }

  // An operation that fails leaves everything as it was.
  function Step(s: State, a: Action): State
    requires Forest(s)
  {
    if a.Sync? then Absorb(s, a.key)
    else
      var c := Decide(s, a);
      if c.Failure? then s
      else
        var t := Publish(s, c.value);
        if t.Failure? then s else t.value
  }

  // ---------------------------------------------------------------- stale reads

  // An operation, the version of each data row that it reads, 0 for none, and the answer of its
  // permission check, whose many reads need not agree with these.
  datatype Turn = Turn(action: Action, seen: map<Key, nat>, permitted: bool)

  function View(s: State, seen: map<Key, nat>): State {
    s.(applied := seen)
  }

  ghost predicate Sees(s: State, seen: map<Key, nat>) {
    forall key :: key in seen ==> key in s.applied && seen[key] <= s.applied[key]
  }

  // publishAsync of a command that follows the version read.
  function PublishAfter(s: State, seen: map<Key, nat>, c: Command): Result<State, Error> {
    if c.key !in s.chains then Publish(s, c)
    else if !Exists(View(s, seen), c.key) then Failure(Conflict)
    else if Data(View(s, seen), c.key) == c.item then Success(s)
    else if seen[c.key] < |s.chains[c.key]| then Failure(Conflict)
    else Success(s.(chains := s.chains[c.key := s.chains[c.key] + [c.item]]))
  }

  function TurnStep(s: State, turn: Turn): State {
    if turn.action.Sync? then Absorb(s, turn.action.key)
    else
      var c := Outcome(View(s, turn.seen), turn.action, turn.permitted);
      if c.Failure? then s
      else
        var t := PublishAfter(s, turn.seen, c.value);
        if t.Failure? then s else t.value
  }

  lemma SeenRowExists(s: State, seen: map<Key, nat>, key: Key)
    requires Forest(s) && Sees(s, seen) && Exists(View(s, seen), key)
    ensures Exists(s, key)
  {
    assert RootedAt(s, key);
  }

  // A turn with stale reads does nothing, or publishes its command as if the reads were current:
  // a command that follows an older version loses the conditional put.
  lemma TurnOutcome(s: State, turn: Turn)
    requires Forest(s) && Sees(s, turn.seen)
    ensures turn.action.Sync? ==> TurnStep(s, turn) == Absorb(s, turn.action.key)
    ensures !turn.action.Sync? ==>
              var c := Outcome(View(s, turn.seen), turn.action, turn.permitted);
              || TurnStep(s, turn) == s
              || (c.Success? && Publish(s, c.value).Success? && TurnStep(s, turn) == Publish(s, c.value).value)
  {
    if !turn.action.Sync? {
      var c := Outcome(View(s, turn.seen), turn.action, turn.permitted);
      if c.Success? && c.value.key in s.chains && Exists(View(s, turn.seen), c.value.key) {
        SeenRowExists(s, turn.seen, c.value.key);
      }
    }
  }

  // With current reads a turn is a step.
  lemma CurrentTurnIsStep(s: State, a: Action)
    requires Forest(s)
    ensures Sees(s, s.applied) && TurnStep(s, Turn(a, s.applied, !a.Sync? && Permitted(s, a))) == Step(s, a)
  {
    assert View(s, s.applied) == s;
  }

  ghost predicate RunOfTurns(s: State, run: seq<Turn>, t: State)
    decreases |run|
  {
    if run == [] then s == t
    else Sees(s, run[0].seen) && Admits(s, run[0].action) && RunOfTurns(TurnStep(s, run[0]), run[1..], t)
  }

  // ---------------------------------------------------------------- the forest is kept

  // A command that may be published: a new version that names the same parent, or a new item
  // whose parent can be read.
  predicate Rooted(s: State, c: Command) {
    if c.key in s.chains then |s.chains[c.key]| > 0 ==> ParentOf(c.item) == ParentOf(s.chains[c.key][0])
    else c.key.sk != "" && (ParentOf(c.item).Some? ==> Exists(s, Key(c.key.pk, ParentOf(c.item).value)))
  }

  lemma PublishKeepsForest(s: State, c: Command)
    requires Forest(s) && Rooted(s, c) && Publish(s, c).Success?
    requires c.key !in s.chains ==> forall key :: key in s.chains ==> key.sk != c.key.sk
    ensures Forest(Publish(s, c).value)
  {
    var t := Publish(s, c).value;
    forall key | key in t.chains ensures RootedAt(t, key) {
      if key in s.chains {
        assert RootedAt(s, key);
      } else if ParentOf(c.item).Some? {
        assert RootedAt(s, Key(c.key.pk, ParentOf(c.item).value));
      }
    }
  }

  lemma AbsorbKeepsForest(s: State, key: Key)
    requires Forest(s)
    ensures Forest(Absorb(s, key))
  {
    var t := Absorb(s, key);
    forall k | k in t.chains ensures RootedAt(t, k) {
      assert RootedAt(s, k);
      if ParentKey(s, k).Some? {
        assert RootedAt(s, ParentKey(s, k).value);
      }
    }
  }

  lemma AllVersionsNameOneParent(s: State, key: Key, v: nat)
    requires Forest(s) && key in s.chains && v < |s.chains[key]|
    ensures ParentOf(s.chains[key][v]) == ParentOf(s.chains[key][0])
  {
    assert RootedAt(s, key);
  }

  lemma NewAncestorsFindsParent(s: State, seen: map<Key, nat>, pk: string, parentId: Option<string>)
    requires Forest(s) && Sees(s, seen) && NewAncestors(View(s, seen), pk, parentId).Success?
    ensures parentId.Some? && parentId.value != "" ==> Exists(s, Key(pk, parentId.value))
  {
    if parentId.Some? && parentId.value != "" {
      SeenRowExists(s, seen, Key(pk, parentId.value));
    }
  }

  lemma OutcomeIsRooted(s: State, turn: Turn)
    requires Forest(s) && Sees(s, turn.seen) && !turn.action.Sync? && Admits(s, turn.action)
    requires Outcome(View(s, turn.seen), turn.action, turn.permitted).Success?
    ensures var c := Outcome(View(s, turn.seen), turn.action, turn.permitted).value;
            && Rooted(s, c) && (IsNew(turn.action) <==> c.key !in s.chains)
            && (c.key !in s.chains ==> forall k :: k in s.chains ==> k.sk != c.key.sk)
  {
    var a, seen := turn.action, turn.seen;
    if a.Copy? || a.Move? {
      NewAncestorsFindsParent(s, seen, HomeOf(a.call), a.parentId);
    } else if a.RestoreHistoryItem? {
      AllVersionsNameOneParent(s, a.key, a.version - 1);
    } else if a.Create? {
      if a.input.parentId.Some? && a.input.parentId.value != "" {
        SeenRowExists(s, seen, Key(HomeOf(a.call), a.input.parentId.value));
      }
    } else {
      AllVersionsNameOneParent(s, a.key, seen[a.key] - 1);
    }
  }

  lemma DecisionIsRooted(s: State, a: Action)
    requires Forest(s) && !a.Sync? && Admits(s, a) && Decide(s, a).Success?
    ensures Rooted(s, Decide(s, a).value)
    ensures var key := Decide(s, a).value.key; key !in s.chains ==> forall k :: k in s.chains ==> k.sk != key.sk
    ensures IsNew(a) <==> Decide(s, a).value.key !in s.chains
  {
    assert View(s, s.applied) == s;
    OutcomeIsRooted(s, Turn(a, s.applied, Permitted(s, a)));
  }

  // Every operation keeps the forest, whatever it reads.
  lemma TurnKeepsForest(s: State, turn: Turn)
    requires Forest(s) && Sees(s, turn.seen) && Admits(s, turn.action)
    ensures Forest(TurnStep(s, turn))
  {
    TurnOutcome(s, turn);
    if turn.action.Sync? {
      AbsorbKeepsForest(s, turn.action.key);
    } else if TurnStep(s, turn) != s {
      OutcomeIsRooted(s, turn);
      PublishKeepsForest(s, Outcome(View(s, turn.seen), turn.action, turn.permitted).value);
    }
  }

  lemma StepKeepsForest(s: State, a: Action)
    requires Forest(s) && Admits(s, a)
    ensures Forest(Step(s, a))
  {
    CurrentTurnIsStep(s, a);
    TurnKeepsForest(s, Turn(a, s.applied, !a.Sync? && Permitted(s, a)));
  }

  ghost predicate RunFrom(s: State, run: seq<Action>, t: State)
    decreases |run|
  {
    if run == [] then s == t
    else Forest(s) && Admits(s, run[0]) && RunFrom(Step(s, run[0]), run[1..], t)
  }

  lemma {:induction false} TurnsKeepForest(s: State, run: seq<Turn>, t: State)
    requires Forest(s) && RunOfTurns(s, run, t)
    ensures Forest(t)
    decreases |run|
  {
    if run != [] {
      TurnKeepsForest(s, run[0]);
      TurnsKeepForest(TurnStep(s, run[0]), run[1..], t);
    }
  }

  // Over any run and whatever the operations read, every version of every item names the same
  // parent, and that is an item under the same partition key that can be read and that was made
  // before it.
  lemma ParentsAreOlder(run: seq<Turn>, s: State, key: Key, v: nat)
    requires RunOfTurns(EMPTY, run, s) && key in s.chains && v < |s.chains[key]|
    ensures var p := ParentOf(s.chains[key][v]);
            p.Some? ==>
              var parent := Key(key.pk, p.value);
              Exists(s, parent) && parent in s.born && key in s.born && s.born[parent] < s.born[key]
  {
    TurnsKeepForest(EMPTY, run, s);
    assert RootedAt(s, key);
  }

  // ---------------------------------------------------------------- the path to the root

  function Path(s: State, key: Key): (path: seq<Key>)
    requires Forest(s) && Exists(s, key)
    ensures path != [] && path[0] == key && forall i :: 0 <= i < |path| ==> Exists(s, path[i])
    decreases s.born[key]
  {
    assert RootedAt(s, key);
    var parent := ParentKey(s, key);
    [key] + if parent.None? then [] else Path(s, parent.value)
  }

  datatype Verdict = Final(role: Option<Role>) | Inherit

  // What one item says about a user, on its own.
  function VerdictOf(item: Item, user: User, now: int): Verdict {
    var a := item.attributes;
    if a.permission.Some? && a.expires.Some? && a.expires.value <= now then Final(None)
    else if a.permission.Some? && CheckPermissionObject(a.permission.value, item.tenant, user).Some?
    then Final(CheckPermissionObject(a.permission.value, item.tenant, user))
    else if a.inheritance == Some(false) || ParentOf(item).None? then Final(None)
    else Inherit
  }

  ghost predicate FirstFinal(s: State, path: seq<Key>, i: nat, user: User, now: int)
    requires forall j :: 0 <= j < |path| ==> Exists(s, path[j])
  {
    && i < |path|
    && VerdictOf(Data(s, path[i]), user, now).Final?
    && forall j :: 0 <= j < i ==> VerdictOf(Data(s, path[j]), user, now).Inherit?
  }

  lemma RoleByVerdict(s: State, key: Key, user: User, now: int)
    requires Forest(s) && Exists(s, key)
    ensures match VerdictOf(Data(s, key), user, now)
            case Final(role) => EffectiveRole(s, key, user, now) == role
            case Inherit =>
              ParentKey(s, key).Some? && EffectiveRole(s, key, user, now) == EffectiveRole(s, ParentKey(s, key).value, user, now)
  {
    AllVersionsNameOneParent(s, key, s.applied[key] - 1);
  }

  lemma FirstFinalBelow(s: State, key: Key, above: seq<Key>, i: nat, user: User, now: int)
    requires Exists(s, key) && VerdictOf(Data(s, key), user, now).Inherit?
    requires (forall j :: 0 <= j < |above| ==> Exists(s, above[j])) && FirstFinal(s, above, i, user, now)
    ensures forall j :: 0 <= j < |[key] + above| ==> Exists(s, ([key] + above)[j])
    ensures FirstFinal(s, [key] + above, i + 1, user, now) && ([key] + above)[i + 1] == above[i]
  {
    var path := [key] + above;
    assert forall j :: 0 < j < |path| ==> path[j] == above[j - 1];
  }

  // The effective role is the word of the first item on the path to the root that decides.
  lemma {:induction false} EffectiveRoleIsFirstVerdict(s: State, key: Key, user: User, now: int)
    requires Forest(s) && Exists(s, key)
    ensures exists i: nat :: FirstFinal(s, Path(s, key), i, user, now)
              && VerdictOf(Data(s, Path(s, key)[i]), user, now).role == EffectiveRole(s, key, user, now)
    decreases s.born[key]
  {
    RoleByVerdict(s, key, user, now);
    if VerdictOf(Data(s, key), user, now).Final? {
      assert FirstFinal(s, Path(s, key), 0, user, now);
    } else {
      var parent := ParentKey(s, key).value;
      assert RootedAt(s, key);
      EffectiveRoleIsFirstVerdict(s, parent, user, now);
      var i: nat :| FirstFinal(s, Path(s, parent), i, user, now)
                    && VerdictOf(Data(s, Path(s, parent)[i]), user, now).role == EffectiveRole(s, parent, user, now);
      FirstFinalBelow(s, key, Path(s, parent), i, user, now);
      assert Path(s, key) == [key] + Path(s, parent);
    }
  }

  // ---------------------------------------------------------------- roles and operations

  // The later state has every item of the earlier one, with the same first version.
  ghost predicate Grows(s: State, t: State) {
    forall key :: key in s.chains ==>
      && key in t.chains && |s.chains[key]| > 0 && |t.chains[key]| > 0 && t.chains[key][0] == s.chains[key][0]
      && (key in s.born ==> key in t.born && s.born[key] == t.born[key])
      && (Exists(s, key) ==> Exists(t, key))
  }

  lemma PublishGrows(s: State, c: Command)
    requires Forest(s) && Publish(s, c).Success?
    ensures Grows(s, Publish(s, c).value)
    ensures forall key :: Exists(s, key) ==> Exists(Publish(s, c).value, key) && Data(Publish(s, c).value, key) == Data(s, key)
  {
    var t := Publish(s, c).value;
    forall key | key in s.chains
      ensures key in t.chains && |s.chains[key]| > 0 && |t.chains[key]| > 0 && t.chains[key][0] == s.chains[key][0]
    {
      assert RootedAt(s, key);
    }
  }

  lemma AbsorbGrows(s: State, a: Key)
    requires Forest(s)
    ensures Grows(s, Absorb(s, a))
    ensures forall key :: Exists(s, key) && key != a ==> Exists(Absorb(s, a), key) && Data(Absorb(s, a), key) == Data(s, key)
  {
    forall key | key in s.chains ensures RootedAt(s, key) {
    }
  }

  // What a step can do at all: nothing, absorb a command, or publish one.
  lemma StepOutcome(s: State, a: Action)
    requires Forest(s)
    ensures a.Sync? ==> Step(s, a) == Absorb(s, a.key)
    ensures !a.Sync? ==>
              || Step(s, a) == s
              || (Decide(s, a).Success? && Publish(s, Decide(s, a).value).Success? && Step(s, a) == Publish(s, Decide(s, a).value).value)
  {
  }

  lemma StepGrows(s: State, a: Action)
    requires Forest(s)
    ensures Grows(s, Step(s, a))
    ensures forall key :: Exists(s, key) && (a.Sync? ==> a.key != key) ==> Exists(Step(s, a), key) && Data(Step(s, a), key) == Data(s, key)
  {
    StepOutcome(s, a);
    if a.Sync? {
      AbsorbGrows(s, a.key);
    } else if Step(s, a) == s {
      forall key | key in s.chains ensures RootedAt(s, key) {
      }
    } else {
      PublishGrows(s, Decide(s, a).value);
    }
  }

  // Roles depend on the data rows of the path only.
  lemma {:induction false} RoleFollowsPath(s: State, t: State, key: Key, user: User, now: int)
    requires Forest(s) && Forest(t) && Grows(s, t) && Exists(s, key)
    requires forall k :: k in Path(s, key) ==> Exists(t, k) && Data(t, k) == Data(s, k)
    ensures EffectiveRole(t, key, user, now) == EffectiveRole(s, key, user, now)
    decreases s.born[key]
  {
    assert RootedAt(s, key);
    assert Path(s, key)[0] in Path(s, key);
    RoleByVerdict(s, key, user, now);
    RoleByVerdict(t, key, user, now);
    if VerdictOf(Data(s, key), user, now).Inherit? {
      var parent := ParentKey(s, key).value;
      assert ParentKey(t, key) == Some(parent);
      forall k | k in Path(s, parent) ensures k in Path(s, key) {
        PathGoesOn(s, key, parent, k);
      }
      RoleFollowsPath(s, t, parent, user, now);
    }
  }

  lemma PathGoesOn(s: State, key: Key, parent: Key, k: Key)
    requires Forest(s) && Exists(s, key) && ParentKey(s, key) == Some(parent) && Exists(s, parent) && k in Path(s, parent)
    ensures k in Path(s, key)
  {
    assert RootedAt(s, key);
    var i :| 0 <= i < |Path(s, parent)| && Path(s, parent)[i] == k;
    assert Path(s, key)[i + 1] == k;
  }

  // An operation changes no role until its command is absorbed; absorbing a command of one
  // item changes roles in the subtree of that item only.
  lemma OnlyAbsorbingChangesRoles(s: State, a: Action, key: Key, user: User, now: int)
    requires Forest(s) && Admits(s, a) && Exists(s, key)
    requires a.Sync? ==> a.key !in Path(s, key)
    ensures Forest(Step(s, a)) && EffectiveRole(Step(s, a), key, user, now) == EffectiveRole(s, key, user, now)
  {
    StepKeepsForest(s, a);
    StepGrows(s, a);
    forall k | k in Path(s, key) ensures Exists(s, k) {
    }
    RoleFollowsPath(s, Step(s, a), key, user, now);
  }

  // ---------------------------------------------------------------- ancestors

  // The sort keys from the root down to an item, and down to its parent.
  function Trail(s: State, key: Key): seq<string>
    requires Forest(s) && key in s.chains
    decreases s.born[key], 1
  {
    Above(s, key) + [key.sk]
  }

  function Above(s: State, key: Key): seq<string>
    requires Forest(s) && key in s.chains
    decreases s.born[key], 0
  {
    assert RootedAt(s, key);
    if ParentKey(s, key).None? then [] else Trail(s, ParentKey(s, key).value)
  }

  // Every version of every item lists exactly the path down to its parent.
  ghost predicate Exact(s: State)
    requires Forest(s)
  {
    forall key, v :: key in s.chains && 0 <= v < |s.chains[key]| ==> s.chains[key][v].attributes.ancestors == Above(s, key)
  }

  lemma {:induction false} TrailStays(s: State, t: State, key: Key)
    requires Forest(s) && Forest(t) && Grows(s, t) && key in s.chains
    ensures Above(t, key) == Above(s, key) && Trail(t, key) == Trail(s, key)
    decreases s.born[key]
  {
    assert RootedAt(s, key) && RootedAt(t, key);
    if ParentKey(s, key).Some? {
      TrailStays(s, t, ParentKey(s, key).value);
    }
  }

  // An update that sets no ancestors, or sets those the item has.
  predicate LeavesAncestors(s: State, a: Action) {
    a.Update? && a.patch.Some? && a.patch.value.ancestors.Some? && Exists(s, a.key) ==>
      a.patch.value.ancestors.value == Data(s, a.key).attributes.ancestors
  }

  // The ancestors that a command should carry.
  predicate Placed(s: State, c: Command)
    requires Forest(s) && Rooted(s, c)
  {
    c.item.attributes.ancestors ==
      if c.key in s.chains then Above(s, c.key)
      else if ParentOf(c.item).None? then []
      else Trail(s, Key(c.key.pk, ParentOf(c.item).value))
  }

  lemma OutcomeIsPlaced(s: State, turn: Turn)
    requires Forest(s) && Exact(s) && Sees(s, turn.seen) && Admits(s, turn.action) && !turn.action.Sync?
    requires Outcome(View(s, turn.seen), turn.action, turn.permitted).Success?
    ensures Rooted(s, Outcome(View(s, turn.seen), turn.action, turn.permitted).value)
    ensures LeavesAncestors(View(s, turn.seen), turn.action) ==>
              Placed(s, Outcome(View(s, turn.seen), turn.action, turn.permitted).value)
  {
    OutcomeIsRooted(s, turn);
  }

  lemma PublishedVersions(s: State, c: Command, key: Key, v: nat)
    requires Publish(s, c).Success?
    requires key in Publish(s, c).value.chains && v < |Publish(s, c).value.chains[key]|
    ensures (key in s.chains && v < |s.chains[key]| && Publish(s, c).value.chains[key][v] == s.chains[key][v])
            || (key == c.key && Publish(s, c).value.chains[key][v] == c.item)
  {
  }

  lemma PublishKeepsExact(s: State, c: Command)
    requires Forest(s) && Exact(s) && Publish(s, c).Success? && Forest(Publish(s, c).value)
    requires Rooted(s, c) && Placed(s, c)
    ensures Exact(Publish(s, c).value)
  {
    var t := Publish(s, c).value;
    PublishGrows(s, c);
    forall key, v | key in t.chains && 0 <= v < |t.chains[key]|
      ensures t.chains[key][v].attributes.ancestors == Above(t, key)
    {
      PublishedVersions(s, c, key, v);
      if key in s.chains {
        TrailStays(s, t, key);
      } else {
        assert RootedAt(t, key);
        if ParentOf(c.item).Some? {
          TrailStays(s, t, Key(c.key.pk, ParentOf(c.item).value));
        }
      }
    }
  }

  lemma AbsorbKeepsExact(s: State, a: Key)
    requires Forest(s) && Exact(s) && Forest(Absorb(s, a))
    ensures Exact(Absorb(s, a))
  {
    var t := Absorb(s, a);
    AbsorbGrows(s, a);
    forall key, v | key in t.chains && 0 <= v < |t.chains[key]|
      ensures t.chains[key][v].attributes.ancestors == Above(t, key)
    {
      TrailStays(s, t, key);
    }
  }

  lemma TurnKeepsExact(s: State, turn: Turn)
    requires Forest(s) && Exact(s) && Sees(s, turn.seen) && Admits(s, turn.action)
    requires LeavesAncestors(View(s, turn.seen), turn.action)
    ensures Forest(TurnStep(s, turn)) && Exact(TurnStep(s, turn))
  {
    TurnKeepsForest(s, turn);
    TurnOutcome(s, turn);
    if turn.action.Sync? {
      AbsorbKeepsExact(s, turn.action.key);
    } else if TurnStep(s, turn) != s {
      OutcomeIsPlaced(s, turn);
      PublishKeepsExact(s, Outcome(View(s, turn.seen), turn.action, turn.permitted).value);
    }
  }

  lemma StepKeepsExact(s: State, a: Action)
    requires Forest(s) && Exact(s) && Admits(s, a) && LeavesAncestors(s, a)
    ensures Forest(Step(s, a)) && Exact(Step(s, a))
  {
    CurrentTurnIsStep(s, a);
    assert View(s, s.applied) == s;
    TurnKeepsExact(s, Turn(a, s.applied, !a.Sync? && Permitted(s, a)));
  }

  // The ancestors stay exact through a step that changes something if and only if the step is
  // not an update that sets other ancestors.
  lemma ExactIffLeftAlone(s: State, a: Action)
    requires Forest(s) && Exact(s) && Admits(s, a) && Step(s, a) != s
    ensures Forest(Step(s, a)) && (Exact(Step(s, a)) <==> LeavesAncestors(s, a))
  {
    StepKeepsForest(s, a);
    if LeavesAncestors(s, a) {
      StepKeepsExact(s, a);
    } else {
      var t := Step(s, a);
      StepOutcome(s, a);
      PublishGrows(s, Decide(s, a).value);
      TrailStays(s, t, a.key);
      var v := |s.chains[a.key]|;
      assert t.chains[a.key][v].attributes.ancestors == a.patch.value.ancestors.value;
      assert s.chains[a.key][s.applied[a.key] - 1].attributes.ancestors == Above(s, a.key);
    }
  }

  ghost predicate CarefulRun(s: State, run: seq<Turn>, t: State)
    decreases |run|
  {
    if run == [] then s == t
    else
      && Sees(s, run[0].seen) && Admits(s, run[0].action) && LeavesAncestors(View(s, run[0].seen), run[0].action)
      && CarefulRun(TurnStep(s, run[0]), run[1..], t)
  }

  lemma {:induction false} RunKeepsExact(s: State, run: seq<Turn>, t: State)
    requires Forest(s) && Exact(s) && CarefulRun(s, run, t)
    ensures Forest(t) && Exact(t)
    decreases |run|
  {
    if run != [] {
      TurnKeepsExact(s, run[0]);
      RunKeepsExact(TurnStep(s, run[0]), run[1..], t);
    }
  }

  // Over any run whose updates leave the ancestors they read alone, and whatever the operations
  // read, every version of every item lists the path from the root down to its parent.
  lemma AncestorsAreThePath(run: seq<Turn>, s: State)
    requires CarefulRun(EMPTY, run, s)
    ensures Forest(s) && Exact(s)
  {
    RunKeepsExact(EMPTY, run, s);
  }

  // ---------------------------------------------------------------- move

  lemma {:induction false} TrailIsPath(s: State, node: Key, item: Key)
    requires Forest(s) && Exists(s, node) && item in s.chains
    ensures item.sk in Trail(s, node) <==> item in Path(s, node)
    decreases s.born[node]
  {
    assert RootedAt(s, node);
    if ParentKey(s, node).Some? {
      TrailIsPath(s, ParentKey(s, node).value, item);
    }
    assert item.sk == node.sk <==> item == node;
  }

  // A permitted move to an existing folder is refused exactly when the folder is the item
  // itself or lies below it.
  lemma MoveIsRefusedIff(s: State, call: Call, key: Key, email: string, target: string)
    requires Forest(s) && Exact(s) && Exists(s, key) && target != "" && Exists(s, Key(HomeOf(call), target))
    requires HasPermission(s, key, WRITERS, User(email, call.tenant), call.now)
    ensures var d := Decide(s, Move(call, key, email, Some(target)));
            && (d.Failure? <==> key in Path(s, Key(HomeOf(call), target)))
            && (d.Failure? ==> d.error == BadRequest)
  {
    var folder := Key(HomeOf(call), target);
    var ancestors := Data(s, folder).attributes.ancestors;
    assert s.chains[folder][s.applied[folder] - 1].attributes.ancestors == Above(s, folder);
    assert ancestors + [target] == Trail(s, folder);
    TrailIsPath(s, folder, key);
  }

  // What is above an item was made before it.
  lemma {:induction false} PathIsOlder(s: State, node: Key, item: Key)
    requires Forest(s) && Exists(s, node) && item in Path(s, node)
    ensures item in s.born && node in s.born && s.born[item] <= s.born[node]
    ensures item != node ==> s.born[item] < s.born[node]
    decreases s.born[node]
  {
    assert RootedAt(s, node);
    if item != node {
      PathIsOlder(s, ParentKey(s, node).value, item);
    }
  }

  // The path of an item that the later state has as well.
  lemma {:induction false} PathStays(s: State, t: State, key: Key)
    requires Forest(s) && Forest(t) && Grows(s, t) && Exists(s, key)
    ensures Exists(t, key) && Path(t, key) == Path(s, key)
    decreases s.born[key]
  {
    assert RootedAt(s, key) && RootedAt(t, key);
    if ParentKey(s, key).Some? {
      PathStays(s, t, ParentKey(s, key).value);
    }
  }

  // An update that clears the ancestors of a folder, and nothing else.
  function Clear(s: State, call: Call, folder: Key, email: string): Action
    requires Exists(s, folder)
  {
    Update(call, folder, email, None, None, Some(Patch(Data(s, folder).attributes.parentId, Some([]), None, None, None)))
  }

  // The caller may write to a folder that has no pending commands.
  predicate MayClear(s: State, call: Call, folder: Key, email: string)
    requires Forest(s)
  {
    && Exists(s, folder) && s.applied[folder] == |s.chains[folder]| && TenantMatches(folder, call)
    && HasPermission(s, folder, WRITERS, User(email, call.tenant), call.now)
  }

  lemma ClearIsPublished(s: State, call: Call, folder: Key, email: string)
    requires Forest(s) && MayClear(s, call, folder, email)
    ensures Decide(s, Clear(s, call, folder, email)).Success?
    ensures var c := Decide(s, Clear(s, call, folder, email)).value;
            c.key == folder && c.item.attributes.ancestors == [] && Publish(s, c).Success?
  {
  }

  // The state once the cleared ancestors are in the data row.
  function Cleared(s: State, call: Call, folder: Key, email: string): (t: State)
    requires Forest(s) && MayClear(s, call, folder, email)
    ensures Forest(t) && Grows(s, t) && Exists(t, folder) && Data(t, folder).attributes.ancestors == []
  {
    StepKeepsForest(s, Clear(s, call, folder, email));
    StepGrows(s, Clear(s, call, folder, email));
    ClearIsAbsorbed(s, call, folder, email);
    Step(Step(s, Clear(s, call, folder, email)), Sync(folder))
  }

  lemma ClearIsAbsorbed(s: State, call: Call, folder: Key, email: string)
    requires Forest(s) && MayClear(s, call, folder, email) && Forest(Step(s, Clear(s, call, folder, email)))
    ensures var u := Step(s, Clear(s, call, folder, email));
            var t := Step(u, Sync(folder));
            Forest(t) && Grows(u, t) && Exists(t, folder) && Data(t, folder).attributes.ancestors == []
  {
    var u := Step(s, Clear(s, call, folder, email));
    ClearIsPublished(s, call, folder, email);
    AbsorbKeepsForest(u, folder);
    AbsorbGrows(u, folder);
  }

  lemma RoleAboveStays(s: State, call: Call, item: Key, folder: Key, email: string, user: User, now: int)
    requires Forest(s) && MayClear(s, call, folder, email) && item in Path(s, folder) && item != folder
    ensures EffectiveRole(Cleared(s, call, folder, email), item, user, now) == EffectiveRole(s, item, user, now)
  {
    var a := Clear(s, call, folder, email);
    StepKeepsForest(s, a);
    StepGrows(s, a);
    var u := Step(s, a);
    assert Exists(s, item) && Exists(u, item);
    PathStays(s, u, folder);
    PathIsOlder(u, folder, item);
    if folder in Path(u, item) {
      PathIsOlder(u, item, folder);
    }
    OnlyAbsorbingChangesRoles(s, a, item, user, now);
    OnlyAbsorbingChangesRoles(u, Sync(folder), item, user, now);
  }

  lemma UnlistedAncestorIsNotSeen(t: State, call: Call, item: Key, folder: Key, email: string)
    requires Forest(t) && Exists(t, item) && Exists(t, folder) && folder.pk == HomeOf(call) && folder.sk != ""
    requires HasPermission(t, item, WRITERS, User(email, call.tenant), call.now)
    ensures Decide(t, Move(call, item, email, Some(folder.sk))).Success?
            <==> item.sk != folder.sk && item.sk !in Data(t, folder).attributes.ancestors
  {
  }

  // Without exact ancestors an item can be moved below itself. Whoever may write to a folder
  // below an item can clear the ancestors of the folder, and then move the item into it.
  lemma ClearedAncestorsAdmitMove(s: State, call: Call, item: Key, folder: Key, email: string)
    requires Forest(s) && MayClear(s, call, folder, email) && item in Path(s, folder) && item != folder
    requires folder.pk == HomeOf(call) && HasPermission(s, item, WRITERS, User(email, call.tenant), call.now)
    ensures var t := Cleared(s, call, folder, email);
            item in Path(t, folder) && Decide(t, Move(call, item, email, Some(folder.sk))).Success?
  {
    var t := Cleared(s, call, folder, email);
    PathStays(s, t, folder);
    RoleAboveStays(s, call, item, folder, email, User(email, call.tenant), call.now);
    assert Exists(t, item) && RootedAt(t, folder);
    UnlistedAncestorIsNotSeen(t, call, item, folder, email);
  }

  // ---------------------------------------------------------------- a run to such a state

  lemma {:induction false} RunSnoc(s: State, run: seq<Action>, t: State, a: Action)
    requires RunFrom(s, run, t) && Forest(t) && Admits(t, a)
    ensures RunFrom(s, run + [a], Step(t, a))
    decreases |run|
  {
    if run == [] {
      assert ([] + [a])[1..] == [];
    } else {
      assert (run + [a])[1..] == run[1..] + [a];
      RunSnoc(Step(s, run[0]), run[1..], t, a);
    }
  }

  lemma {:induction false} SplitWhole(s: string)
    requires K.KEY_SEPARATOR !in s
    ensures K.Split(s) == [s]
  {
    if s != "" {
      SplitWhole(s[1..]);
      assert [s[0]] + s[1..] == s;
    }
  }

  lemma HomeMatches(call: Call, sk: string)
    requires K.KEY_SEPARATOR !in call.tenant
    ensures TenantMatches(Key(HomeOf(call), sk), call)
  {
    K.SplitFirst(PK_PREFIX, call.tenant);
    SplitWhole(call.tenant);
  }

  const OPEN := Permission(GENERAL, Some(TAKE_OWNERSHIP), None, None)

  function OpenFolder(tenant: string, sk: string, parentId: Option<string>, ancestors: seq<string>): Item {
    Item(sk, false, tenant, Attributes(parentId, ancestors, None, None, Some(OPEN), "", None))
  }

  function NewFolder(sk: string, parentId: Option<string>): NewItem {
    NewItem(sk, parentId, Some([]), None, None, Some(OPEN), "", None)
  }

  // A new item is published and absorbed.
  lemma NewItemAppears(run: seq<Action>, s: State, a: Action, key: Key, item: Item) returns (longer: seq<Action>, t: State)
    requires RunFrom(EMPTY, run, s) && Forest(s) && Admits(s, a)
    requires Step(s, a).chains == s.chains[key := [item]] && Step(s, a).applied == s.applied[key := 0]
    ensures RunFrom(EMPTY, longer, t) && Forest(t)
    ensures t.chains == s.chains[key := [item]] && t.applied == s.applied[key := 1]
  {
    longer := RunSteps(run, s, a);
    longer, t := RunAbsorbs(longer, Step(s, a), key, item);
  }

  lemma RunSteps(run: seq<Action>, s: State, a: Action) returns (longer: seq<Action>)
    requires RunFrom(EMPTY, run, s) && Forest(s) && Admits(s, a)
    ensures Forest(Step(s, a)) && RunFrom(EMPTY, longer, Step(s, a))
  {
    StepKeepsForest(s, a);
    RunSnoc(EMPTY, run, s, a);
    longer := run + [a];
  }

  lemma RunAbsorbs(run: seq<Action>, u: State, key: Key, item: Item) returns (longer: seq<Action>, t: State)
    requires RunFrom(EMPTY, run, u) && Forest(u)
    requires key in u.chains && u.chains[key] == [item] && key in u.applied && u.applied[key] == 0
    ensures RunFrom(EMPTY, longer, t) && Forest(t) && t.chains == u.chains && t.applied == u.applied[key := 1]
  {
    AbsorbKeepsForest(u, key);
    AbsorbsNew(u, key, item);
    RunSnoc(EMPTY, run, u, Sync(key));
    longer, t := run + [Sync(key)], Step(u, Sync(key));
  }

  lemma StepPublishesNew(s: State, a: Action, key: Key, item: Item)
    requires Forest(s) && !a.Sync? && Decide(s, a) == Success(Command(key, item)) && key !in s.chains
    ensures Step(s, a).chains == s.chains[key := [item]] && Step(s, a).applied == s.applied[key := 0]
  {
  }

  lemma AbsorbsNew(u: State, key: Key, item: Item)
    requires Forest(u) && key in u.chains && u.chains[key] == [item] && key in u.applied && u.applied[key] == 0
    ensures Step(u, Sync(key)).chains == u.chains && Step(u, Sync(key)).applied == u.applied[key := 1]
  {
  }

  // An open folder at the root.
  lemma FolderAtRoot(tenant: string, a: string) returns (run: seq<Action>, s: State)
    requires a != ""
    ensures RunFrom(EMPTY, run, s) && Forest(s)
    ensures var key := Key(HomeOf(Call(tenant, 0, a)), a);
            s.chains == map[key := [OpenFolder(tenant, a, None, [])]] && s.applied == map[key := 1]
  {
    var call := Call(tenant, 0, a);
    StepPublishesNew(EMPTY, Create(call, NewFolder(a, None)), Key(HomeOf(call), a), OpenFolder(tenant, a, None, []));
    run, s := NewItemAppears([], EMPTY, Create(call, NewFolder(a, None)), Key(HomeOf(call), a), OpenFolder(tenant, a, None, []));
  }

  lemma OpenIsPermitted(s: State, key: Key, user: User, now: int)
    requires Forest(s) && Exists(s, key)
    requires Data(s, key).attributes.permission == Some(OPEN) && Data(s, key).attributes.expires == None
    ensures HasPermission(s, key, WRITERS, user, now)
  {
  }

  // An open folder below an open folder.
  lemma FolderBelowFolder(tenant: string, a: string, b: string) returns (run: seq<Action>, s: State)
    requires a != "" && b != "" && a != b
    ensures RunFrom(EMPTY, run, s) && Forest(s)
    ensures var pk := HomeOf(Call(tenant, 0, a));
            && s.chains == map[Key(pk, a) := [OpenFolder(tenant, a, None, [])], Key(pk, b) := [OpenFolder(tenant, b, Some(a), [a])]]
            && s.applied == map[Key(pk, a) := 1, Key(pk, b) := 1]
  {
    var before, r := FolderAtRoot(tenant, a);
    var call := Call(tenant, 0, b);
    var parent, key := Key(HomeOf(call), a), Key(HomeOf(call), b);
    OpenIsPermitted(r, parent, User("", tenant), 0);
    ChildIsCreated(r, call, parent, OpenFolder(tenant, a, None, []));
    assert [] + [a] == [a];
    StepPublishesNew(r, Create(call, NewFolder(b, Some(a))), key, OpenFolder(tenant, b, Some(a), [a]));
    run, s := NewItemAppears(before, r, Create(call, NewFolder(b, Some(a))), key, OpenFolder(tenant, b, Some(a), [a]));
  }

  lemma ChildIsCreated(s: State, call: Call, parent: Key, item: Item)
    requires Forest(s) && Exists(s, parent) && Data(s, parent) == item && parent.sk != "" && parent.pk == HomeOf(call)
    requires HasPermission(s, parent, WRITERS, User("", call.tenant), call.now)
    ensures Decide(s, Create(call, NewFolder(call.sk, Some(parent.sk)))) ==
            Success(Command(Key(parent.pk, call.sk),
                            OpenFolder(call.tenant, call.sk, Some(parent.sk), item.attributes.ancestors + [parent.sk])))
  {
  }

  lemma RunToMove(run: seq<Action>, s: State, call: Call, item: Key, folder: Key, email: string) returns (longer: seq<Action>, t: State)
    requires RunFrom(EMPTY, run, s) && Forest(s) && MayClear(s, call, folder, email) && item in Path(s, folder) && item != folder
    requires folder.pk == HomeOf(call) && HasPermission(s, item, WRITERS, User(email, call.tenant), call.now)
    ensures RunFrom(EMPTY, longer, t) && Forest(t) && Exists(t, folder) && item in Path(t, folder)
    ensures Decide(t, Move(call, item, email, Some(folder.sk))).Success?
  {
    ClearedAncestorsAdmitMove(s, call, item, folder, email);
    var clear := Clear(s, call, folder, email);
    t := Cleared(s, call, folder, email);
    StepKeepsForest(s, clear);
    RunSnoc(EMPTY, run, s, clear);
    RunSnoc(EMPTY, run + [clear], Step(s, clear), Sync(folder));
    longer := run + [clear] + [Sync(folder)];
  }

  // There is a run after which the service moves a folder into one of its subfolders.
  lemma FolderIsMovedBelowItself(tenant: string, a: string, b: string, email: string, sk: string)
    requires K.KEY_SEPARATOR !in tenant && a != "" && b != "" && a != b
    ensures var call := Call(tenant, 0, sk);
            var item, folder := Key(HomeOf(call), a), Key(HomeOf(call), b);
            exists run, t :: && RunFrom(EMPTY, run, t) && Forest(t)
                             && Exists(t, folder) && item in Path(t, folder) && item != folder
                             && Decide(t, Move(call, item, email, Some(folder.sk))).Success?
  {
    var call := Call(tenant, 0, sk);
    var item, folder := Key(HomeOf(call), a), Key(HomeOf(call), b);
    var run, s := FolderBelowFolder(tenant, a, b);
    assert s.chains.Keys == {item, folder};
    assert s.chains[folder] == [OpenFolder(tenant, b, Some(a), [a])] && s.chains[item] == [OpenFolder(tenant, a, None, [])];
    HomeMatches(call, b);
    OpenIsPermitted(s, item, User(email, tenant), 0);
    OpenIsPermitted(s, folder, User(email, tenant), 0);
    ParentIsOnPath(s, folder, item);
    var longer, t := RunToMove(run, s, call, item, folder, email);
  }

  lemma ParentIsOnPath(s: State, key: Key, parent: Key)
    requires Forest(s) && Exists(s, key) && ParentKey(s, key) == Some(parent)
    ensures Exists(s, parent) && parent in Path(s, key)
  {
    assert RootedAt(s, key);
    assert Path(s, key)[1] == Path(s, parent)[0] == parent;
  }

  // A move makes a new item without children; the old item stays where it was, with all its
  // children and their paths.
  lemma MoveCopiesOneNode(s: State, call: Call, key: Key, email: string, parentId: Option<string>)
    requires Forest(s) && Admits(s, Move(call, key, email, parentId))
    requires Decide(s, Move(call, key, email, parentId)).Success?
    ensures var t, made := Step(s, Move(call, key, email, parentId)), Key(HomeOf(call), call.sk);
            && Forest(t) && t.chains.Keys == s.chains.Keys + {made} && made !in s.chains
            && (forall k :: k in s.chains ==> t.chains[k] == s.chains[k] && Trail(t, k) == Trail(s, k))
            && (forall k :: k in t.chains ==> ParentKey(t, k) != Some(made))
            && Trail(t, made) == (if parentId.None? || parentId.value == "" then [] else Trail(s, Key(made.pk, parentId.value))) + [made.sk]
  {
    var a := Move(call, key, email, parentId);
    MoveDecides(s, call, key, email, parentId);
    DecisionIsRooted(s, a);
    NewItemHasNoChildren(s, Decide(s, a).value);
  }

  lemma MoveDecides(s: State, call: Call, key: Key, email: string, parentId: Option<string>)
    requires Forest(s) && Decide(s, Move(call, key, email, parentId)).Success?
    ensures var c := Decide(s, Move(call, key, email, parentId)).value;
            c.key == Key(HomeOf(call), call.sk) && c.item.attributes.parentId == parentId
  {
  }

  // Publishing a new item adds one node, without children, and moves nothing.
  lemma NewItemHasNoChildren(s: State, c: Command)
    requires Forest(s) && c.key !in s.chains && Rooted(s, c) && forall key :: key in s.chains ==> key.sk != c.key.sk
    ensures Publish(s, c).Success?
    ensures var t := Publish(s, c).value;
            && Forest(t) && t.chains == s.chains[c.key := [c.item]]
            && (forall k :: k in s.chains ==> Trail(t, k) == Trail(s, k))
            && (forall k :: k in t.chains ==> ParentKey(t, k) != Some(c.key))
            && Trail(t, c.key) == (if ParentOf(c.item).None? then [] else Trail(s, Key(c.key.pk, ParentOf(c.item).value))) + [c.key.sk]
  {
    var t := Publish(s, c).value;
    PublishKeepsForest(s, c);
    PublishGrows(s, c);
    forall k | k in s.chains ensures Trail(t, k) == Trail(s, k) && ParentKey(t, k) != Some(c.key) {
      TrailStays(s, t, k);
      assert RootedAt(s, k);
    }
    assert RootedAt(t, c.key);
  }

  // ---------------------------------------------------------------- the service

  function ErrorOf(s: State, a: Action): Option<Error>
    requires Forest(s) && !a.Sync?
  {
    var c := Decide(s, a);
    if c.Failure? then Some(c.error)
    else if Publish(s, c.value).Failure? then Some(Publish(s, c.value).error)
    else None
  }

  class DirectoryService {
    var chains: map<Key, seq<Item>>
    var applied: map<Key, nat>
    var born: map<Key, nat>
    var clock: nat

    function Tables(): State
      reads this
    {
      State(chains, applied, born, clock)
    }

    constructor ()
      ensures Tables() == EMPTY && Forest(Tables())
    {
      chains, applied, born, clock := map[], map[], map[], 0;
    }

    // The conditional put behind publishAsync.
    method PublishAsync(key: Key, item: Item) returns (error: Option<Error>)
      modifies this
      ensures var t := Publish(old(Tables()), Command(key, item));
              if t.Success? then error == None && Tables() == t.value
              else error == Some(t.error) && Tables() == old(Tables())
    {
      if key !in chains {
        chains := chains[key := [item]];
        applied := applied[key := 0];
        born := born[key := clock];
        clock := clock + 1;
        return None;
      }
      if !Exists(Tables(), key) {
        return Some(Conflict);
      }
      if Data(Tables(), key) == item {
        return None;
      }
      if applied[key] < |chains[key]| {
        return Some(Conflict);
      }
      chains := chains[key := chains[key] + [item]];
      return None;
    }

    method GetItemAttributes(pk: string, sk: string) returns (attributes: Result<Attributes, Error>)
      ensures attributes == if Exists(Tables(), Key(pk, sk)) then Success(Data(Tables(), Key(pk, sk)).attributes) else Failure(NotFound)
    {
      if !Exists(Tables(), Key(pk, sk)) {
        return Failure(NotFound);
      }
      return Success(Data(Tables(), Key(pk, sk)).attributes);
    }

    method CreateItem(call: Call, input: NewItem) returns (error: Option<Error>)
      requires Forest(Tables()) && Admits(Tables(), Create(call, input))
      modifies this
      ensures error == ErrorOf(old(Tables()), Create(call, input))
      ensures Tables() == Step(old(Tables()), Create(call, input)) && Forest(Tables())
    {
      StepKeepsForest(Tables(), Create(call, input));
      var pk := HomeOf(call);
      var hasParent := input.parentId.Some? && input.parentId.value != "";
      if !hasParent && input.ancestors.None? {
        return Some(TypeFault);
      }
      var isRoot := !hasParent && input.ancestors.value == [];
      var newAncestors := [];
      if !isRoot {
        var parent := Key(pk, if input.parentId.Some? then input.parentId.value else "");
        var canWrite := HasPermission(Tables(), parent, WRITERS, User(input.owner, call.tenant), call.now);
        if !canWrite {
          return Some(Forbidden);
        }
        var attributes := GetItemAttributes(pk, parent.sk);
        newAncestors := attributes.value.ancestors + [parent.sk];
      }
      error := PublishAsync(Key(pk, call.sk), Item(input.name, false, call.tenant,
        Attributes(input.parentId, newAncestors, input.inheritance, input.expires, input.permission, input.owner, input.s3Key)));
    }

    method CopyItem(call: Call, key: Key, path: string, email: string, parentId: Option<string>) returns (error: Option<Error>)
      requires Forest(Tables()) && Admits(Tables(), Copy(call, key, path, email, parentId))
      modifies this
      ensures error == ErrorOf(old(Tables()), Copy(call, key, path, email, parentId))
      ensures Tables() == Step(old(Tables()), Copy(call, key, path, email, parentId)) && Forest(Tables())
    {
      StepKeepsForest(Tables(), Copy(call, key, path, email, parentId));
      if !Exists(Tables(), key) {
        return Some(NotFound);
      }
      var data, pk := Data(Tables(), key), HomeOf(call);
      var newAncestors := [];
      if parentId.Some? && parentId.value != "" {
        var attributes := GetItemAttributes(pk, parentId.value);
        if attributes.Failure? {
          return Some(attributes.error);
        }
        newAncestors := attributes.value.ancestors + [parentId.value];
      }
      var attributes := data.attributes.(s3Key := Some(path + "/" + data.name), ancestors := newAncestors,
                                         parentId := parentId, owner := email);
      error := PublishAsync(Key(pk, call.sk), Item(data.name, false, call.tenant, attributes));
    }

    method MoveItem(call: Call, key: Key, email: string, parentId: Option<string>) returns (error: Option<Error>)
      requires Forest(Tables()) && Admits(Tables(), Move(call, key, email, parentId))
      modifies this
      ensures error == ErrorOf(old(Tables()), Move(call, key, email, parentId))
      ensures Tables() == Step(old(Tables()), Move(call, key, email, parentId)) && Forest(Tables())
    {
      StepKeepsForest(Tables(), Move(call, key, email, parentId));
      if !Exists(Tables(), key) {
        return Some(NotFound);
      }
      var data, pk := Data(Tables(), key), HomeOf(call);
      if !HasPermission(Tables(), key, WRITERS, User(email, call.tenant), call.now) {
        return Some(Forbidden);
      }
      var newAncestors := [];
      if parentId.Some? && parentId.value != "" {
        var attributes := GetItemAttributes(pk, parentId.value);
        if attributes.Failure? {
          return Some(attributes.error);
        }
        newAncestors := attributes.value.ancestors + [parentId.value];
      }
      if key.sk in newAncestors {
        return Some(BadRequest);
      }
      error := PublishAsync(Key(pk, call.sk),
                            Item(data.name, false, call.tenant, data.attributes.(ancestors := newAncestors, parentId := parentId)));
    }

    method UpdateItem(call: Call, key: Key, email: string, name: Option<string>, isDeleted: Option<bool>, patch: Option<Patch>)
      returns (error: Option<Error>)
      requires Forest(Tables())
      modifies this
      ensures error == ErrorOf(old(Tables()), Update(call, key, email, name, isDeleted, patch))
      ensures Tables() == Step(old(Tables()), Update(call, key, email, name, isDeleted, patch)) && Forest(Tables())
    {
      StepKeepsForest(Tables(), Update(call, key, email, name, isDeleted, patch));
      if !TenantMatches(key, call) {
        return Some(BadRequest);
      }
      if !Exists(Tables(), key) {
        return Some(NotFound);
      }
      var data := Data(Tables(), key);
      var allowed := {CHANGE_PERMISSION, TAKE_OWNERSHIP};
      if patch.None? || patch.value.permission.None? {
        allowed := allowed + {WRITE};
      }
      if !HasPermission(Tables(), key, allowed, User(email, call.tenant), call.now) {
        return Some(Forbidden);
      }
      if patch.Some? && patch.value.parentId != data.attributes.parentId {
        return Some(BadRequest);
      }
      var attributes := if patch.Some? then Patched(data.attributes, patch.value) else data.attributes;
      error := PublishAsync(key, data.(name := if name.Some? then name.value else data.name,
                                       isDeleted := if isDeleted.Some? then isDeleted.value else data.isDeleted,
                                       attributes := attributes));
    }

    method RestoreVersion(call: Call, key: Key, email: string, version: int) returns (error: Option<Error>)
      requires Forest(Tables())
      modifies this
      ensures error == ErrorOf(old(Tables()), RestoreHistoryItem(call, key, email, version))
      ensures Tables() == Step(old(Tables()), RestoreHistoryItem(call, key, email, version)) && Forest(Tables())
    {
      StepKeepsForest(Tables(), RestoreHistoryItem(call, key, email, version));
      if key !in chains || !(1 <= version <= |chains[key]|) {
        return Some(NotFound);
      }
      var item := chains[key][version - 1];
      if !HasPermission(Tables(), key, WRITERS, User(email, call.tenant), call.now) {
        return Some(Forbidden);
      }
      error := PublishAsync(key, item.(isDeleted := false));
    }
  }
}
