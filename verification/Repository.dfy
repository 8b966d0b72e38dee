/**
 The read side: a list read from the data table, overlaid with the caller's own pending
 commands. Each session row names an item and the version of the caller's last command on it.
 */
module Repository {
  import opened Wrappers
  import opened CommandModel
  import opened StableSort
  import K = Keys
  import M = OrderedMap

  datatype Item = Item(pk: string, sk: string, row: DataRow)

  // `sk` is the module's table name, a separator and the id of an item.
  datatype Session = Session(sk: string, version: int)

  // What the overlay reads besides the list: the command rows of one partition key, under
  // their versioned sort keys.
  datatype Source = Source(moduleTable: string, pk: string, commands: map<string, Command>)

  function Id(item: Item): string {
    item.row.business.id
  }

  function UpdatedAt(item: Item): int {
    if item.row.updated.time.Some? then item.row.updated.time.value else 0
  }

  // ---------------------------------------------------------------- one session

  function ItemId(src: Source, s: Session): Option<string> {
    var prefix := src.moduleTable + [K.KEY_SEPARATOR];
    if prefix <= s.sk then Some(s.sk[|prefix|..]) else None
  }

  function SkBase(src: Source, itemId: string, existing: Option<Item>): Option<string> {
    if existing.Some? && existing.value.sk != "" then Some(K.RemoveVersion(existing.value.sk))
    else
      var base := K.SortKeyBaseFromId(src.pk, itemId);
      if base == Some("") then None else base
  }

  datatype Change = Keep | Remove | Put(item: Item)

  // What a session does to the item of its id, given how the item looks in the list.
  function ChangeFor(src: Source, itemId: string, existing: Option<Item>, version: int): Change {
    if existing.Some? && existing.value.row.version >= version then Keep
    else
      var base := SkBase(src, itemId, existing);
      if base.None? || K.AddVersion(base.value, version) !in src.commands then Keep
      else
        var cmd := src.commands[K.AddVersion(base.value, version)];
        if cmd.business.isDeleted == Some(true) then Remove
        else Put(Item(src.pk, K.RemoveVersion(base.value),
                      Project(cmd, if existing.Some? then Some(existing.value.row) else None)))
  }

  // ---------------------------------------------------------------- all sessions, in order

  datatype Merge = Merge(entries: M.Entries<Item>, creates: seq<Item>)

  function Step(src: Source, m: Merge, s: Session): Merge {
    var id := ItemId(src, s);
    if id.None? then m
    else
      match ChangeFor(src, id.value, M.Get(m.entries, id.value), s.version)
      case Keep => m
      case Remove => m.(entries := M.Delete(m.entries, id.value))
      case Put(item) =>
        if M.Has(m.entries, id.value) then m.(entries := M.Set(m.entries, id.value, item))
        else m.(creates := m.creates + [item])
  }

  function Steps(src: Source, m: Merge, sessions: seq<Session>): Merge
    decreases |sessions|
  {
    if sessions == [] then m else Steps(src, Step(src, m, sessions[0]), sessions[1..])
  }

  function Pairs(base: seq<Item>): M.Entries<Item> {
    seq(|base|, i requires 0 <= i < |base| => (Id(base[i]), base[i]))
  }

  function Render(m: Merge): seq<Item> {
    SortDesc(UpdatedAt, m.creates) + M.Values(m.entries)
  }

  // Whether there is anything to merge: the flag is set, the caller is known, the partition
  // key names a tenant, and there are sessions.
  predicate Merges(src: Source, latestFlg: bool, userId: Option<string>, sessions: seq<Session>) {
    && latestFlg && userId.Some? && userId.value != ""
    && K.TenantCode(src.pk).Some? && K.TenantCode(src.pk).value != ""
    && sessions != []
  }

  // listItemsByPk.
  method ListItemsByPk(src: Source, base: seq<Item>, sessions: seq<Session>, latestFlg: bool, userId: Option<string>)
    returns (items: seq<Item>)
    ensures items == if Merges(src, latestFlg, userId, sessions)
                     then Render(Steps(src, Merge(M.FromPairs(Pairs(base)), []), sessions))
                     else base
  {
    if !Merges(src, latestFlg, userId, sessions) {
      return base;
    }
    var itemMap := M.FromPairs(Pairs(base));
    var newItems: seq<Item> := [];
    var i := 0;
    while i < |sessions|
      invariant 0 <= i <= |sessions|
      invariant Steps(src, Merge(M.FromPairs(Pairs(base)), []), sessions) == Steps(src, Merge(itemMap, newItems), sessions[i..])
    {
      var session := sessions[i];
      assert sessions[i..][0] == session && sessions[i..][1..] == sessions[i + 1..];
      i := i + 1;
      var prefix := src.moduleTable + [K.KEY_SEPARATOR];
      if !(prefix <= session.sk) {
        continue;
      }
      var itemId := session.sk[|prefix|..];
      var existing := M.Get(itemMap, itemId);
      if existing.Some? && existing.value.row.version >= session.version {
        continue;
      }
      var skBase: string;
      if existing.Some? && existing.value.sk != "" {
        skBase := K.RemoveVersion(existing.value.sk);
      } else {
        var parsed := K.SortKeyBaseFromId(src.pk, itemId);
        if parsed.None? || parsed.value == "" {
          continue;
        }
        skBase := parsed.value;
      }
      var key := K.AddVersion(skBase, session.version);
      if key !in src.commands {
        continue;
      }
      var cmd := src.commands[key];
      var transformed := Item(src.pk, K.RemoveVersion(skBase),
                              Project(cmd, if existing.Some? then Some(existing.value.row) else None));
      if cmd.business.isDeleted == Some(true) {
        itemMap := M.Delete(itemMap, itemId);
      } else if existing.Some? {
        M.GetIffHas(itemMap, itemId);
        itemMap := M.Set(itemMap, itemId, transformed);
      } else {
        M.GetIffHas(itemMap, itemId);
        newItems := newItems + [transformed];
      }
    }
    items := SortDesc(UpdatedAt, newItems) + M.Values(itemMap);
  }

  // ---------------------------------------------------------------- the reference

  // The session on an item, if any.
  function SessionOn(src: Source, id: string, sessions: seq<Session>): Option<Session> {
    if sessions == [] then None
    else if ItemId(src, sessions[0]) == Some(id) then Some(sessions[0])
    else SessionOn(src, id, sessions[1..])
  }

  // What becomes of one item of the list.
  function Fate(src: Source, entry: (string, Item), sessions: seq<Session>): M.Entries<Item> {
    var s := SessionOn(src, entry.0, sessions);
    if s.None? then [entry]
    else
      match ChangeFor(src, entry.0, Some(entry.1), s.value.version)
      case Keep => [entry]
      case Remove => []
      case Put(item) => [(entry.0, item)]
  }

  // The list in its order, every item having met its fate.
  function Overlay(src: Source, entries: M.Entries<Item>, sessions: seq<Session>): M.Entries<Item> {
    if entries == [] then [] else Fate(src, entries[0], sessions) + Overlay(src, entries[1..], sessions)
  }

  // The pending creates: sessions on items that are not in the list.
  function Created(src: Source, entries: M.Entries<Item>, sessions: seq<Session>): seq<Item> {
    if sessions == [] then []
    else
      var id := ItemId(src, sessions[0]);
      (if id.None? || M.Has(entries, id.value) then []
       else
         var change := ChangeFor(src, id.value, None, sessions[0].version);
         if change.Put? then [change.item] else [])
      + Created(src, entries, sessions[1..])
  }

  ghost predicate DistinctSessions(sessions: seq<Session>) {
    forall i, j :: 0 <= i < j < |sessions| ==> sessions[i].sk != sessions[j].sk
  }

  predicate NoSessionOn(src: Source, id: string, sessions: seq<Session>) {
    SessionOn(src, id, sessions).None?
  }

  lemma {:induction false} FirstSessionIsAlone(src: Source, s: Session, rest: seq<Session>, id: string)
    requires DistinctSessions([s] + rest) && ItemId(src, s) == Some(id)
    ensures NoSessionOn(src, id, rest)
    decreases |rest|
  {
    if rest != [] {
      var all := [s] + rest;
      assert all[0].sk != all[1].sk && all[1] == rest[0];
      var prefix := src.moduleTable + [K.KEY_SEPARATOR];
      assert s.sk == prefix + id;
      assert ItemId(src, rest[0]).Some? ==> rest[0].sk == prefix + ItemId(src, rest[0]).value;
      var fewer := [s] + rest[1..];
      forall i, j | 0 <= i < j < |fewer| ensures fewer[i].sk != fewer[j].sk {
        assert fewer[j] == all[j + 1];
        assert fewer[i] == all[if i == 0 then 0 else i + 1];
      }
      FirstSessionIsAlone(src, s, rest[1..], id);
    }
  }

  lemma OneSession(src: Source, s: Session, id: string)
    ensures SessionOn(src, id, [s]) == if ItemId(src, s) == Some(id) then Some(s) else None
  {
    assert [s][1..] == [];
  }

  lemma OverlayOne(src: Source, entry: (string, Item), sessions: seq<Session>)
    ensures Overlay(src, [entry], sessions) == Fate(src, entry, sessions)
  {
    assert [entry][1..] == [];
  }

  lemma {:induction false} OverlayConcat(src: Source, a: M.Entries<Item>, b: M.Entries<Item>, sessions: seq<Session>)
    ensures Overlay(src, a + b, sessions) == Overlay(src, a, sessions) + Overlay(src, b, sessions)
  {
    if a == [] {
      assert a + b == b;
    } else {
      assert (a + b)[1..] == a[1..] + b;
      OverlayConcat(src, a[1..], b, sessions);
    }
  }

  lemma {:induction false} OverlayUntouched(src: Source, entries: M.Entries<Item>, s: Session)
    requires ItemId(src, s).None? || !M.Has(entries, ItemId(src, s).value)
    ensures Overlay(src, entries, [s]) == entries
  {
    if entries != [] {
      assert M.Has(entries, entries[0].0);
      M.Decompose(entries);
      OneSession(src, s, entries[0].0);
      OverlayUntouched(src, entries[1..], s);
      assert entries == [entries[0]] + entries[1..];
    }
  }

  // One pass of the loop does to the map what the reference does with that session alone.
  lemma {:induction false} StepIsOverlay(src: Source, m: Merge, s: Session)
    requires M.Distinct(m.entries)
    ensures Step(src, m, s).entries == Overlay(src, m.entries, [s])
    decreases |m.entries|
  {
    var entries := m.entries;
    if entries != [] {
      M.Decompose(entries);
      OneSession(src, s, entries[0].0);
      assert entries == [entries[0]] + entries[1..];
      StepIsOverlay(src, Merge(entries[1..], m.creates), s);
      var id := ItemId(src, s);
      if id.Some? {
        M.GetIffHas(entries, id.value);
        M.GetIffHas(entries[1..], id.value);
        if entries[0].0 == id.value {
          OverlayUntouched(src, entries[1..], s);
        }
      }
    }
  }

  lemma FateThenRest(src: Source, entry: (string, Item), s: Session, rest: seq<Session>)
    requires DistinctSessions([s] + rest)
    ensures Overlay(src, Fate(src, entry, [s]), rest) == Fate(src, entry, [s] + rest)
  {
    assert ([s] + rest)[1..] == rest;
    OneSession(src, s, entry.0);
    if ItemId(src, s) == Some(entry.0) {
      FirstSessionIsAlone(src, s, rest, entry.0);
    }
    var fate := Fate(src, entry, [s]);
    if fate != [] {
      assert fate == [fate[0]];
      OverlayOne(src, fate[0], rest);
    }
  }

  lemma {:induction false} OverlayTwice(src: Source, entries: M.Entries<Item>, s: Session, rest: seq<Session>)
    requires DistinctSessions([s] + rest)
    ensures Overlay(src, Overlay(src, entries, [s]), rest) == Overlay(src, entries, [s] + rest)
  {
    if entries != [] {
      OverlayTwice(src, entries[1..], s, rest);
      OverlayConcat(src, Fate(src, entries[0], [s]), Overlay(src, entries[1..], [s]), rest);
      FateThenRest(src, entries[0], s, rest);
    }
  }

  lemma StepKeepsKeys(src: Source, m: Merge, s: Session, id: string)
    requires M.Distinct(m.entries)
    ensures M.Distinct(Step(src, m, s).entries)
    ensures ItemId(src, s) != Some(id) ==> (M.Has(Step(src, m, s).entries, id) <==> M.Has(m.entries, id))
  {
    if ItemId(src, s).Some? {
      var k := ItemId(src, s).value;
      var change := ChangeFor(src, k, M.Get(m.entries, k), s.version);
      if change.Put? {
        M.SetKeepsDistinct(m.entries, k, change.item);
      }
      M.DeleteKeepsDistinct(m.entries, k);
    }
  }

  lemma {:induction false} CreatedAfterStep(src: Source, m: Merge, s: Session, rest: seq<Session>)
    requires M.Distinct(m.entries) && DistinctSessions([s] + rest)
    ensures Created(src, Step(src, m, s).entries, rest) == Created(src, m.entries, rest)
    decreases |rest|
  {
    if rest != [] {
      var all := [s] + rest;
      var fewer := [s] + rest[1..];
      forall i, j | 0 <= i < j < |fewer| ensures fewer[i].sk != fewer[j].sk {
        assert fewer[j] == all[j + 1];
        assert fewer[i] == all[if i == 0 then 0 else i + 1];
      }
      CreatedAfterStep(src, m, s, rest[1..]);
      var id := ItemId(src, rest[0]);
      if id.Some? {
        StepKeepsKeys(src, m, s, id.value);
        if ItemId(src, s) == id {
          FirstSessionIsAlone(src, s, rest, id.value);
        }
      }
    }
  }

  // The loop computes the reference: with distinct items and sessions, the items of the list
  // each meet their fate in place, and the rest are the pending creates.
  lemma {:induction false} StepsAreOverlay(src: Source, m: Merge, sessions: seq<Session>)
    requires M.Distinct(m.entries) && DistinctSessions(sessions)
    ensures Steps(src, m, sessions) == Merge(Overlay(src, m.entries, sessions), m.creates + Created(src, m.entries, sessions))
    decreases |sessions|
  {
    if sessions == [] {
      OverlayNothing(src, m.entries);
    } else {
      var s, rest := sessions[0], sessions[1..];
      assert sessions == [s] + rest;
      var next := Step(src, m, s);
      StepKeepsKeys(src, m, s, "");
      StepsAreOverlay(src, next, rest);
      StepIsOverlay(src, m, s);
      OverlayTwice(src, m.entries, s, rest);
      CreatedAfterStep(src, m, s, rest);
      StepCreates(src, m, s);
      CreatedSplit(src, m.entries, s, rest);
      CreatesAppend(m.creates, next.creates, Created(src, m.entries, [s]), Created(src, m.entries, rest));
    }
  }

  lemma CreatesAppend(before: seq<Item>, after: seq<Item>, added: seq<Item>, rest: seq<Item>)
    requires |before| <= |after| && after[..|before|] == before && added == after[|before|..]
    ensures after + rest == before + (added + rest)
  {
  }

  lemma CreatedSplit(src: Source, entries: M.Entries<Item>, s: Session, rest: seq<Session>)
    ensures Created(src, entries, [s] + rest) == Created(src, entries, [s]) + Created(src, entries, rest)
  {
    assert ([s] + rest)[1..] == rest && [s][1..] == [];
    assert ([s] + rest)[0] == s;
  }

  lemma StepCreates(src: Source, m: Merge, s: Session)
    ensures var next := Step(src, m, s);
            |m.creates| <= |next.creates| && next.creates[..|m.creates|] == m.creates
            && Created(src, m.entries, [s]) == next.creates[|m.creates|..]
  {
    assert [s][1..] == [];
    if ItemId(src, s).Some? {
      M.GetIffHas(m.entries, ItemId(src, s).value);
    }
  }

  lemma {:induction false} OverlayNothing(src: Source, entries: M.Entries<Item>)
    ensures Overlay(src, entries, []) == entries
  {
    if entries != [] {
      OverlayNothing(src, entries[1..]);
    }
  }

  // ---------------------------------------------------------------- main results

  ghost predicate DistinctItems(base: seq<Item>) {
    M.Distinct(Pairs(base))
  }

  // listItemsByPk, exactly: the pending creates, latest first, before the list in its own
  // order with pending updates in place and pending deletes gone.
  lemma MergeRefinesReference(src: Source, base: seq<Item>, sessions: seq<Session>)
    requires DistinctItems(base) && DistinctSessions(sessions)
    ensures Render(Steps(src, Merge(M.FromPairs(Pairs(base)), []), sessions))
            == SortDesc(UpdatedAt, Created(src, Pairs(base), sessions)) + M.Values(Overlay(src, Pairs(base), sessions))
  {
    M.FromDistinctPairs(Pairs(base));
    StepsAreOverlay(src, Merge(Pairs(base), []), sessions);
    assert [] + Created(src, Pairs(base), sessions) == Created(src, Pairs(base), sessions);
  }

  lemma {:induction false} SessionOnMeaning(src: Source, id: string, sessions: seq<Session>)
    requires DistinctSessions(sessions)
    ensures SessionOn(src, id, sessions).Some? ==>
              SessionOn(src, id, sessions).value in sessions && ItemId(src, SessionOn(src, id, sessions).value) == Some(id)
    ensures forall s :: s in sessions && ItemId(src, s) == Some(id) ==> SessionOn(src, id, sessions) == Some(s)
    decreases |sessions|
  {
    if sessions != [] {
      var s, rest := sessions[0], sessions[1..];
      assert sessions == [s] + rest;
      SessionOnMeaning(src, id, rest);
      if ItemId(src, s) == Some(id) {
        FirstSessionIsAlone(src, s, rest, id);
      }
    }
  }

  // The order of the sessions does not matter for the items of the list.
  lemma {:induction false} SessionOrderDoesNotMatter(src: Source, entries: M.Entries<Item>, a: seq<Session>, b: seq<Session>)
    requires DistinctSessions(a) && DistinctSessions(b)
    requires forall s :: s in a <==> s in b
    ensures Overlay(src, entries, a) == Overlay(src, entries, b)
  {
    if entries != [] {
      SessionOnMeaning(src, entries[0].0, a);
      SessionOnMeaning(src, entries[0].0, b);
      SessionOrderDoesNotMatter(src, entries[1..], a, b);
    }
  }

  // A session that the list has caught up with.
  predicate CaughtUp(src: Source, entries: M.Entries<Item>, s: Session) {
    var id := ItemId(src, s);
    id.None? || (M.Get(entries, id.value).Some? && M.Get(entries, id.value).value.row.version >= s.version)
  }

  // Sessions that the list has caught up with change nothing.
  lemma {:induction false} CaughtUpChangesNothing(src: Source, entries: M.Entries<Item>, sessions: seq<Session>)
    requires forall s :: s in sessions ==> CaughtUp(src, entries, s)
    ensures Steps(src, Merge(entries, []), sessions) == Merge(entries, [])
    decreases |sessions|
  {
    if sessions != [] {
      assert CaughtUp(src, entries, sessions[0]);
      CaughtUpChangesNothing(src, entries, sessions[1..]);
    }
  }

  // ---------------------------------------------------------------- distinct ids

  // Every command carries the id that its key stands for.
  ghost predicate IdsFollowKeys(src: Source) {
    forall b, v :: K.AddVersion(b, v) in src.commands ==>
      src.commands[K.AddVersion(b, v)].business.id == K.GenerateId(src.pk, b)
  }

  // The id of a list item is the one its key stands for, and the key is not versioned.
  predicate WellKeyed(src: Source, entry: (string, Item)) {
    entry.0 == Id(entry.1) == K.GenerateId(src.pk, entry.1.sk) && entry.1.sk != "" && K.VER_SEPARATOR !in entry.1.sk
  }

  predicate PlainSession(src: Source, s: Session) {
    var id := ItemId(src, s);
    id.Some? && K.SortKeyBaseFromId(src.pk, id.value).Some? ==>
      K.VER_SEPARATOR !in K.SortKeyBaseFromId(src.pk, id.value).value
  }

  predicate DistinctIds(items: seq<Item>) {
    forall i, j :: 0 <= i < j < |items| ==> Id(items[i]) != Id(items[j])
  }

  lemma PutKeepsId(src: Source, id: string, existing: Option<Item>, version: int)
    requires IdsFollowKeys(src) && ChangeFor(src, id, existing, version).Put?
    requires existing.Some? ==> WellKeyed(src, (id, existing.value))
    requires existing.None? && K.SortKeyBaseFromId(src.pk, id).Some? ==>
               K.VER_SEPARATOR !in K.SortKeyBaseFromId(src.pk, id).value
    ensures Id(ChangeFor(src, id, existing, version).item) == id
  {
    var base := SkBase(src, id, existing).value;
    assert src.commands[K.AddVersion(base, version)].business.id == K.GenerateId(src.pk, base);
    if existing.None? {
      K.IdReadsBack(src.pk, id, base);
    }
  }

  lemma {:induction false} OverlayKeepsIds(src: Source, entries: M.Entries<Item>, sessions: seq<Session>)
    requires IdsFollowKeys(src) && M.Distinct(entries)
    requires forall e :: e in entries ==> WellKeyed(src, e)
    ensures M.Distinct(Overlay(src, entries, sessions))
    ensures forall e :: e in Overlay(src, entries, sessions) ==> e.0 == Id(e.1) && M.Has(entries, e.0)
  {
    if entries != [] {
      M.Decompose(entries);
      OverlayKeepsIds(src, entries[1..], sessions);
      var first, rest := entries[0], Overlay(src, entries[1..], sessions);
      assert WellKeyed(src, first);
      var s := SessionOn(src, first.0, sessions);
      if s.Some? && ChangeFor(src, first.0, Some(first.1), s.value.version).Put? {
        PutKeepsId(src, first.0, Some(first.1), s.value.version);
      }
      var fate := Fate(src, first, sessions);
      assert forall i :: 0 <= i < |rest| ==> rest[i] in rest;
      if fate != [] {
        assert fate == [fate[0]];
        M.Prepend(fate[0], rest);
      } else {
        assert fate + rest == rest;
      }
    }
  }

  lemma {:induction false} CreatedIds(src: Source, entries: M.Entries<Item>, sessions: seq<Session>)
    requires IdsFollowKeys(src) && DistinctSessions(sessions)
    requires forall s :: s in sessions ==> PlainSession(src, s)
    ensures DistinctIds(Created(src, entries, sessions))
    ensures forall x :: x in Created(src, entries, sessions) ==>
              !M.Has(entries, Id(x)) && SessionOn(src, Id(x), sessions).Some?
    decreases |sessions|
  {
    if sessions != [] {
      var s, rest := sessions[0], sessions[1..];
      assert sessions == [s] + rest;
      CreatedIds(src, entries, rest);
      var id := ItemId(src, s);
      if id.Some? && !M.Has(entries, id.value) {
        var change := ChangeFor(src, id.value, None, s.version);
        if change.Put? {
          assert PlainSession(src, s);
          PutKeepsId(src, id.value, None, s.version);
          FirstSessionIsAlone(src, s, rest, id.value);
        }
      }
    }
  }

  lemma {:induction false} SortKeepsIds(items: seq<Item>)
    requires DistinctIds(items)
    ensures DistinctIds(SortDesc(UpdatedAt, items))
    ensures forall x :: x in SortDesc(UpdatedAt, items) <==> x in items
  {
    if items != [] {
      SortKeepsIds(items[1..]);
      assert items == [items[0]] + items[1..];
      assert forall x :: x in items[1..] ==> Id(x) != Id(items[0]);
      InsertKeepsIds(items[0], SortDesc(UpdatedAt, items[1..]));
    }
  }

  lemma {:induction false} InsertKeepsIds(x: Item, ys: seq<Item>)
    requires DistinctIds(ys) && forall y :: y in ys ==> Id(y) != Id(x)
    ensures DistinctIds(Insert(UpdatedAt, x, ys))
    ensures forall z :: z in Insert(UpdatedAt, x, ys) <==> z == x || z in ys
  {
    if ys != [] {
      assert ys == [ys[0]] + ys[1..];
      InsertKeepsIds(x, ys[1..]);
      var rest := Insert(UpdatedAt, x, ys[1..]);
      assert forall z :: z in rest ==> Id(z) != Id(ys[0]);
      assert forall i :: 0 <= i < |rest| ==> rest[i] in rest;
    }
  }

  // The merged list names every item once, provided that commands, list items and sessions
  // are keyed the way the services write them.
  lemma MergedIdsAreDistinct(src: Source, base: seq<Item>, sessions: seq<Session>)
    requires DistinctItems(base) && DistinctSessions(sessions) && IdsFollowKeys(src)
    requires forall e :: e in Pairs(base) ==> WellKeyed(src, e)
    requires forall s :: s in sessions ==> PlainSession(src, s)
    ensures DistinctIds(Render(Steps(src, Merge(M.FromPairs(Pairs(base)), []), sessions)))
  {
    var entries := Pairs(base);
    MergeRefinesReference(src, base, sessions);
    OverlayKeepsIds(src, entries, sessions);
    CreatedIds(src, entries, sessions);
    var creates := Created(src, entries, sessions);
    SortKeepsIds(creates);
    var sorted, kept := SortDesc(UpdatedAt, creates), Overlay(src, entries, sessions);
    var items := sorted + M.Values(kept);
    forall i, j | 0 <= i < j < |items| ensures Id(items[i]) != Id(items[j]) {
      if j >= |sorted| {
        assert kept[j - |sorted|] in kept;
        if i < |sorted| {
          assert items[i] in creates;
        } else {
          assert kept[i - |sorted|] in kept;
        }
      }
    }
  }
}
