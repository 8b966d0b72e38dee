/**
 The read side over an external query source (a relational table, a search index): a page of
 hits and a total, overlaid with the caller's own pending commands.
 */
module ExternalList {
  import opened Wrappers
  import opened CommandModel
  import opened StableSort
  import K = Keys
  import M = OrderedMap

  // A hit of the query; it may carry its key in the data table, and when it was updated.
  datatype Hit = Hit(id: string, pk: Option<string>, sk: Option<string>, updatedAt: Option<int>, body: string)

  datatype Session = Session(sk: string, version: int)

  datatype Options = Options(
    getVersion: Option<Hit -> Option<int>>,
    transform: (Command, Option<Hit>) -> Hit,
    matchesFilter: Option<Hit -> bool>)

  // Command rows by partition key and versioned sort key, and the versions of data rows.
  datatype Source = Source(moduleTable: string, commands: map<(string, string), Command>, data: map<(string, string), int>)

  function UpdatedAt(h: Hit): int {
    if h.updatedAt.Some? then h.updatedAt.value else 0
  }

  predicate Truthy(s: Option<string>) {
    s.Some? && s.value != ""
  }

  // What is known about one session before the merge.
  datatype Finding = Nothing | Synced | Pending(cmd: Command, existing: Option<Hit>, itemId: string)

  // Where the rows of a session's item are: taken from the hit, or parsed from the id.
  function Location(existing: Option<Hit>, itemId: string): Option<(string, string)> {
    if existing.Some? && Truthy(existing.value.sk) && Truthy(existing.value.pk)
    then Some((existing.value.pk.value, K.RemoveVersion(existing.value.sk.value)))
    else K.ParseTwoSegment(itemId)
  }

  function Investigate(src: Source, opts: Options, hits: M.Entries<Hit>, s: Session): Finding {
    var prefix := src.moduleTable + [K.KEY_SEPARATOR];
    if !(prefix <= s.sk) then Nothing
    else
      var itemId := s.sk[|prefix|..];
      var existing := M.Get(hits, itemId);
      var at := Location(existing, itemId);
      if at.None? || at.value.0 == "" || at.value.1 == "" then Nothing
      else
        var current := if existing.Some? && opts.getVersion.Some? then opts.getVersion.value(existing.value) else None;
        if current.Some? && current.value >= s.version then Synced
        else if at.value in src.data && src.data[at.value] >= s.version then Synced
        else
          var key := (at.value.0, K.AddVersion(at.value.1, s.version));
          if key in src.commands then Pending(src.commands[key], existing, itemId) else Nothing
  }

  function Investigations(src: Source, opts: Options, hits: M.Entries<Hit>, sessions: seq<Session>): seq<Finding> {
    seq(|sessions|, i requires 0 <= i < |sessions| => Investigate(src, opts, hits, sessions[i]))
  }

  // ---------------------------------------------------------------- the merge

  datatype Page = Page(hits: M.Entries<Hit>, creates: seq<Hit>, total: int)

  function Step(opts: Options, p: Page, f: Finding): Page {
    if !f.Pending? then p
    else
      var hit := opts.transform(f.cmd, f.existing);
      if f.cmd.business.isDeleted == Some(true) then
        if M.Has(p.hits, f.itemId) then p.(hits := M.Delete(p.hits, f.itemId), total := p.total - 1) else p
      else if M.Has(p.hits, f.itemId) then p.(hits := M.Set(p.hits, f.itemId, hit))
      else if opts.matchesFilter.None? || opts.matchesFilter.value(hit) then
        p.(creates := p.creates + [hit], total := p.total + 1)
      else p
  }

  function Steps(opts: Options, p: Page, findings: seq<Finding>): Page
    decreases |findings|
  {
    if findings == [] then p else Steps(opts, Step(opts, p, findings[0]), findings[1..])
  }

  function Pairs(base: seq<Hit>): M.Entries<Hit> {
    seq(|base|, i requires 0 <= i < |base| => (base[i].id, base[i]))
  }

  function Merged(src: Source, opts: Options, total: int, base: seq<Hit>, sessions: seq<Session>): Page {
    var hits := M.FromPairs(Pairs(base));
    Steps(opts, Page(hits, [], total), Investigations(src, opts, hits, sessions))
  }

  function Items(p: Page): seq<Hit> {
    SortDesc(UpdatedAt, p.creates) + M.Values(p.hits)
  }

  lemma OneStep(opts: Options, p: Page, findings: seq<Finding>, i: nat)
    requires i < |findings|
    ensures Steps(opts, p, findings[i..]) == Steps(opts, Step(opts, p, findings[i]), findings[i + 1..])
  {
    assert findings[i..][0] == findings[i] && findings[i..][1..] == findings[i + 1..];
  }

  // listItems, past its early exits: at least one session, a known caller and tenant.
  method ListItems(src: Source, opts: Options, total: int, base: seq<Hit>, sessions: seq<Session>)
    returns (adjustedTotal: int, items: seq<Hit>)
    ensures adjustedTotal == Merged(src, opts, total, base, sessions).total
    ensures items == Items(Merged(src, opts, total, base, sessions))
  {
    var itemMap := M.FromPairs(Pairs(base));
    var findings := Investigations(src, opts, itemMap, sessions);
    var newItems: seq<Hit> := [];
    adjustedTotal := total;
    ghost var goal := Merged(src, opts, total, base, sessions);
    var i := 0;
    while i < |findings|
      invariant 0 <= i <= |findings|
      invariant goal == Steps(opts, Page(itemMap, newItems, adjustedTotal), findings[i..])
    {
      var f := findings[i];
      ghost var now := Page(itemMap, newItems, adjustedTotal);
      OneStep(opts, now, findings, i);
      i := i + 1;
      if !f.Pending? {
        continue;
      }
      var transformed := opts.transform(f.cmd, f.existing);
      var present := M.Get(itemMap, f.itemId).Some?;
      M.GetIffHas(itemMap, f.itemId);
      ghost var after := Step(opts, now, f);
      if f.cmd.business.isDeleted == Some(true) {
        if present {
          itemMap := M.Delete(itemMap, f.itemId);
          adjustedTotal := adjustedTotal - 1;
        }
      } else if present {
        itemMap := M.Set(itemMap, f.itemId, transformed);
      } else if opts.matchesFilter.None? || opts.matchesFilter.value(transformed) {
        newItems := newItems + [transformed];
        adjustedTotal := adjustedTotal + 1;
      }
      assert Page(itemMap, newItems, adjustedTotal) == after;
    }
    items := SortDesc(UpdatedAt, newItems) + M.Values(itemMap);
  }

  // ---------------------------------------------------------------- the books

  // Whatever the findings, the total moves by the creates minus the deletes, and so does the
  // number of items.
  lemma {:induction false} StepsBalance(opts: Options, p: Page, findings: seq<Finding>)
    requires M.Distinct(p.hits)
    ensures var q := Steps(opts, p, findings);
            M.Distinct(q.hits) && q.total - p.total == |q.creates| - |p.creates| + |q.hits| - |p.hits|
            && |q.creates| >= |p.creates| && |q.hits| <= |p.hits|
    decreases |findings|
  {
    if findings != [] {
      var f := findings[0];
      if f.Pending? {
        M.DeleteKeepsDistinct(p.hits, f.itemId);
        M.SetKeepsDistinct(p.hits, f.itemId, opts.transform(f.cmd, f.existing));
      }
      StepsBalance(opts, Step(opts, p, f), findings[1..]);
    }
  }

  // listItems keeps the books, exactly: for any sessions and any filter, the total changes by
  // as much as the number of items if and only if the ids of the page are distinct; with
  // repeated ids items are lost and the total is too high.
  lemma BooksBalanceIff(src: Source, opts: Options, total: int, base: seq<Hit>, sessions: seq<Session>)
    ensures var q := Merged(src, opts, total, base, sessions);
            && (q.total - total == |Items(q)| - |base| <==> M.Distinct(Pairs(base)))
            && q.total - total >= |Items(q)| - |base|
            && (M.Distinct(Pairs(base)) ==> q.total - total == |q.creates| - (|base| - |q.hits|))
  {
    var hits := M.FromPairs(Pairs(base));
    M.FromDistinctPairs(Pairs(base));
    StepsBalance(opts, Page(hits, [], total), Investigations(src, opts, hits, sessions));
    SortLength(UpdatedAt, Merged(src, opts, total, base, sessions).creates);
  }
}
