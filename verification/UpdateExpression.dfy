/**
 The compiler from an update description to a DynamoDB update expression with placeholders,
 and what DynamoDB makes of the result. The expression is kept as its clauses; keys are taken
 to be plain attribute names, without the dots and brackets of document paths.
 */
module UpdateExpression {
  import opened Wrappers

  // DynamoDB has no empty set.
  type Members = s: set<string> | s != {} witness {""}

  // An attribute value; `Elements` is a string set.
  datatype Attr =
    | Num(number: int) | Str(text: string) | Bool(flag: bool)
    | List(items: seq<Attr>) | Map(fields: map<string, Attr>) | Elements(elements: Members)

  type Item = map<string, Attr>

  // ---------------------------------------------------------------- descriptions

  // What the builder makes of one value to set: the value itself, or the fields of an object
  // that has at least one of the modifiers.
  datatype SetInput =
    | Plain(attr: Attr)
    | Modified(init: Option<Attr>, inc: Option<Attr>, dec: Option<Attr>, append: Option<Attr>)

  // `set`, `remove` and `delete`, each with its keys in order; a key may carry no value. A
  // removed key may name one element of a list.
  datatype Removal = Kept | Whole | Element(index: nat)

  datatype Description = Description(
    toSet: Option<seq<(string, Option<Attr>)>>,
    remove: Option<seq<(string, Removal)>>,
    delete: Option<seq<(string, Option<Attr>)>>)

  // ---------------------------------------------------------------- expressions

  datatype Rhs =
    | Slot(slot: string)
    | IfNotExists(name: string, slot: string)
    | Plus(rhs: Rhs, slot: string)
    | Minus(rhs: Rhs, slot: string)
    | ListAppend(name: string, slot: string)

  datatype SetClause = SetClause(target: string, rhs: Rhs)
  datatype RemoveClause = RemoveClause(target: string, index: Option<nat>)
  datatype DeleteClause = DeleteClause(target: string, slot: string)

  datatype Compiled = Compiled(
    sets: Option<seq<SetClause>>, removes: Option<seq<RemoveClause>>, deletes: Option<seq<DeleteClause>>,
    names: map<string, string>, values: map<string, Attr>)

  // ---------------------------------------------------------------- placeholders

  const INIT := "InitVal"
  const INC := "IncrementBy"
  const DEC := "DecrementBy"
  const APPEND := "appendFor"

  function Name(key: string): string { "#" + key }
  function SlotOf(key: string): string { ":" + key }

  predicate Truthy(a: Attr) {
    a != Num(0) && a != Str("") && a != Bool(false)
  }

  function FieldOf(a: Attr, name: string): Option<Attr> {
    if a.Map? && name in a.fields then Some(a.fields[name]) else None
  }

  // The argument of ifNotExists or listAppend is a value, or an object with a path and a value.
  // The attribute it reads is its path, or else the key.
  function PathOf(op: Attr, key: string): string {
    var path := FieldOf(op, "path");
    if path.Some? && path.value.Str? && path.value.text != "" then path.value.text else key
  }

  function Written(op: Attr): Attr {
    if FieldOf(op, "value").Some? then FieldOf(op, "value").value else op
  }

  // `op.value || op`: a falsy value is taken for the whole object.
  function Used(op: Attr): Attr {
    if Truthy(Written(op)) then Written(op) else op
  }

  predicate HasFalsyValue(op: Attr) {
    FieldOf(op, "value").Some? && !Truthy(FieldOf(op, "value").value)
  }

  // ---------------------------------------------------------------- classification

  const RESERVED := ["ifNotExists", "incrementBy", "decrementBy", "listAppend"]

  predicate IsModifier(a: Attr) {
    exists name :: name in RESERVED && FieldOf(a, name).Some?
  }

  function Classify(a: Attr): SetInput {
    var init, inc, dec, append :=
      FieldOf(a, "ifNotExists"), FieldOf(a, "incrementBy"), FieldOf(a, "decrementBy"), FieldOf(a, "listAppend");
    if init.Some? || inc.Some? || dec.Some? || append.Some? then Modified(init, inc, dec, append) else Plain(a)
  }

  lemma ClassifyMeaning(a: Attr)
    ensures Classify(a).Plain? <==> !IsModifier(a)
    ensures Classify(a).Plain? ==> Classify(a) == Plain(a)
  {
    assert RESERVED[0] in RESERVED && RESERVED[1] in RESERVED && RESERVED[2] in RESERVED && RESERVED[3] in RESERVED;
  }

  // ---------------------------------------------------------------- one set clause

  function Stem(key: string, v: SetInput): Rhs {
    if v.Modified? && v.init.Some? then IfNotExists(Name(PathOf(v.init.value, key)), SlotOf(key + INIT)) else Slot(SlotOf(key))
  }

  function RhsFor(key: string, v: SetInput): Rhs {
    if v.Plain? then Slot(SlotOf(key))
    else if v.append.Some? then
      var path := PathOf(v.append.value, key);
      ListAppend(Name(path), SlotOf(APPEND + path))
    else
      var a := if v.inc.Some? then Plus(Stem(key, v), SlotOf(key + INC)) else Stem(key, v);
      if v.dec.Some? then Minus(a, SlotOf(key + DEC)) else a
  }

  function ValuesFor(key: string, v: SetInput): map<string, Attr> {
    if v.Plain? then map[SlotOf(key) := v.attr]
    else
      var a := if v.init.Some? then map[SlotOf(key + INIT) := Used(v.init.value)] else map[];
      var b := if v.inc.Some? then a[SlotOf(key + INC) := v.inc.value] else a;
      var c := if v.dec.Some? then b[SlotOf(key + DEC) := v.dec.value] else b;
      if v.append.Some? then c[SlotOf(APPEND + PathOf(v.append.value, key)) := Used(v.append.value)] else c
  }

  function WithName(names: map<string, string>, path: string): map<string, string> {
    names[Name(path) := path]
  }

  function NamesFor(key: string, v: SetInput): map<string, string> {
    var own := WithName(map[], key);
    var a := if v.Modified? && v.init.Some? then WithName(own, PathOf(v.init.value, key)) else own;
    if v.Modified? && v.append.Some? then WithName(a, PathOf(v.append.value, key)) else a
  }

  // ---------------------------------------------------------------- compilation

  type Entries = seq<(string, SetInput)>

  function Present<T>(inputs: seq<(string, Option<T>)>): seq<(string, T)> {
    if inputs == [] then []
    else
      var (key, v) := inputs[|inputs| - 1];
      Present(inputs[..|inputs| - 1]) + if v.Some? then [(key, v.value)] else []
  }

  function Removed(inputs: seq<(string, Removal)>): seq<(string, Option<nat>)> {
    if inputs == [] then []
    else
      var (key, v) := inputs[|inputs| - 1];
      Removed(inputs[..|inputs| - 1]) + if v.Kept? then [] else [(key, if v.Element? then Some(v.index) else None)]
  }

  function SetClauses(entries: Entries): seq<SetClause> {
    seq(|entries|, i requires 0 <= i < |entries| => SetClause(Name(entries[i].0), RhsFor(entries[i].0, entries[i].1)))
  }

  function RemoveClauses(removed: seq<(string, Option<nat>)>): seq<RemoveClause> {
    seq(|removed|, i requires 0 <= i < |removed| => RemoveClause(Name(removed[i].0), removed[i].1))
  }

  function DeleteClauses(deleted: seq<(string, Attr)>): seq<DeleteClause> {
    seq(|deleted|, i requires 0 <= i < |deleted| => DeleteClause(Name(deleted[i].0), SlotOf(deleted[i].0)))
  }

  function Values(entries: Entries): map<string, Attr> {
    if entries == [] then map[]
    else Values(entries[..|entries| - 1]) + ValuesFor(entries[|entries| - 1].0, entries[|entries| - 1].1)
  }

  function Names(entries: Entries): map<string, string> {
    if entries == [] then map[]
    else Names(entries[..|entries| - 1]) + NamesFor(entries[|entries| - 1].0, entries[|entries| - 1].1)
  }

  function KeyNames(keys: seq<string>): map<string, string> {
    if keys == [] then map[] else WithName(KeyNames(keys[..|keys| - 1]), keys[|keys| - 1])
  }

  function Keys<T>(entries: seq<(string, T)>): seq<string> {
    seq(|entries|, i requires 0 <= i < |entries| => entries[i].0)
  }

  // A deleted key binds its value like a key that is plainly set.
  function AsSet(deleted: seq<(string, Attr)>): Entries {
    seq(|deleted|, i requires 0 <= i < |deleted| => (deleted[i].0, Plain(deleted[i].1)))
  }

  function Classified(inputs: seq<(string, Attr)>): Entries {
    seq(|inputs|, i requires 0 <= i < |inputs| => (inputs[i].0, Classify(inputs[i].1)))
  }

  function Sets(d: Description): Entries {
    if d.toSet.Some? then Classified(Present(d.toSet.value)) else []
  }

  function Removes(d: Description): seq<(string, Option<nat>)> {
    if d.remove.Some? then Removed(d.remove.value) else []
  }

  function Deletes(d: Description): seq<(string, Attr)> {
    if d.delete.Some? then Present(d.delete.value) else []
  }

  function Compile(d: Description): Compiled {
    Compiled(if d.toSet.Some? then Some(SetClauses(Sets(d))) else None,
             if d.remove.Some? then Some(RemoveClauses(Removes(d))) else None,
             if d.delete.Some? then Some(DeleteClauses(Deletes(d))) else None,
             Names(Sets(d)) + KeyNames(Keys(Removes(d))) + KeyNames(Keys(Deletes(d))),
             Values(Sets(d)) + Values(AsSet(Deletes(d))))
  }

  // ---------------------------------------------------------------- the builders

  lemma PresentUpTo<T>(inputs: seq<(string, Option<T>)>, i: nat)
    requires i < |inputs|
    ensures var (key, v) := inputs[i];
            Present(inputs[..i + 1]) == if v.Some? then Present(inputs[..i]) + [(key, v.value)] else Present(inputs[..i])
  {
    assert inputs[..i + 1][..i] == inputs[..i];
  }

  lemma ClassifiedUpTo(inputs: seq<(string, Option<Attr>)>, i: nat)
    requires i < |inputs|
    ensures var (key, v), done := inputs[i], Classified(Present(inputs[..i]));
            Classified(Present(inputs[..i + 1])) == if v.Some? then done + [(key, Classify(v.value))] else done
  {
    PresentUpTo(inputs, i);
  }

  lemma RemovedUpTo(inputs: seq<(string, Removal)>, i: nat)
    requires i < |inputs|
    ensures var (key, v) := inputs[i];
            Removed(inputs[..i + 1]) ==
              if v.Kept? then Removed(inputs[..i])
              else Removed(inputs[..i]) + [(key, if v.Element? then Some(v.index) else None)]
  {
    assert inputs[..i + 1][..i] == inputs[..i];
  }

  lemma SetSnoc(entries: Entries, key: string, v: SetInput)
    ensures Values(entries + [(key, v)]) == Values(entries) + ValuesFor(key, v)
    ensures Names(entries + [(key, v)]) == Names(entries) + NamesFor(key, v)
    ensures SetClauses(entries + [(key, v)]) == SetClauses(entries) + [SetClause(Name(key), RhsFor(key, v))]
  {
    var all := entries + [(key, v)];
    assert all[..|all| - 1] == entries;
  }

  lemma KeySnoc<T>(entries: seq<(string, T)>, key: string, v: T)
    ensures KeyNames(Keys(entries + [(key, v)])) == WithName(KeyNames(Keys(entries)), key)
  {
    var all := Keys(entries + [(key, v)]);
    assert all[..|all| - 1] == Keys(entries);
  }

  lemma RemoveSnoc(removed: seq<(string, Option<nat>)>, key: string, index: Option<nat>)
    ensures RemoveClauses(removed + [(key, index)]) == RemoveClauses(removed) + [RemoveClause(Name(key), index)]
  {
  }

  lemma DeleteSnoc(entries: seq<(string, Attr)>, key: string, v: Attr)
    ensures DeleteClauses(entries + [(key, v)]) == DeleteClauses(entries) + [DeleteClause(Name(key), SlotOf(key))]
  {
  }

  lemma DeleteValuesSnoc(entries: seq<(string, Attr)>, key: string, v: Attr)
    ensures Values(AsSet(entries + [(key, v)])) == Values(AsSet(entries))[SlotOf(key) := v]
  {
    var all := AsSet(entries + [(key, v)]);
    assert all[..|all| - 1] == AsSet(entries);
  }

  method BuildUpdateSetExpression(inputs: seq<(string, Option<Attr>)>)
    returns (clauses: seq<SetClause>, names: map<string, string>, values: map<string, Attr>)
    ensures clauses == SetClauses(Classified(Present(inputs)))
    ensures names == Names(Classified(Present(inputs))) && values == Values(Classified(Present(inputs)))
  {
    clauses, names, values := [], map[], map[];
    ghost var done: Entries := [];
    var i := 0;
    while i < |inputs|
      invariant 0 <= i <= |inputs| && done == Classified(Present(inputs[..i]))
      invariant clauses == SetClauses(done) && names == Names(done) && values == Values(done)
    {
      var (key, input) := inputs[i];
      ClassifiedUpTo(inputs, i);
      if input.Some? {
        var rhs, bound, named := BuildSetClause(key, input.value);
        SetSnoc(done, key, Classify(input.value));
        done := done + [(key, Classify(input.value))];
        names := names + named;
        values := values + bound;
        clauses := clauses + [SetClause(Name(key), rhs)];
      }
      i := i + 1;
    }
    assert inputs[..i] == inputs;
  }

  // The body of the loop over the keys to set.
  method BuildSetClause(key: string, val: Attr) returns (rhs: Rhs, values: map<string, Attr>, names: map<string, string>)
    ensures rhs == RhsFor(key, Classify(val)) && values == ValuesFor(key, Classify(val)) && names == NamesFor(key, Classify(val))
  {
    rhs, values, names := Slot(SlotOf(key)), map[], map[Name(key) := key];
    if !val.Map? {
      values := values[SlotOf(key) := val];
      return;
    }
    var isSetValue := false;
    if "ifNotExists" in val.fields {
      isSetValue := true;
      var ifNotExists := val.fields["ifNotExists"];
      var path := PathOf(ifNotExists, key);
      rhs := IfNotExists(Name(path), SlotOf(key + INIT));
      values := values[SlotOf(key + INIT) := Used(ifNotExists)];
      names := AddName(names, path);
    }
    if "incrementBy" in val.fields {
      isSetValue := true;
      rhs := Plus(rhs, SlotOf(key + INC));
      values := values[SlotOf(key + INC) := val.fields["incrementBy"]];
    }
    if "decrementBy" in val.fields {
      isSetValue := true;
      rhs := Minus(rhs, SlotOf(key + DEC));
      values := values[SlotOf(key + DEC) := val.fields["decrementBy"]];
    }
    if "listAppend" in val.fields {
      isSetValue := true;
      var listAppend := val.fields["listAppend"];
      var path := PathOf(listAppend, key);
      rhs := ListAppend(Name(path), SlotOf(APPEND + path));
      values := values[SlotOf(APPEND + path) := Used(listAppend)];
      names := AddName(names, path);
    }
    if !isSetValue {
      values := values[SlotOf(key) := val];
    }
  }

  ghost predicate NamesTheirKeys(names: map<string, string>) {
    forall n :: n in names ==> n == Name(names[n])
  }

  // A name that is bound already is left as it is.
  method AddName(names: map<string, string>, path: string) returns (more: map<string, string>)
    requires NamesTheirKeys(names)
    ensures more == WithName(names, path) && NamesTheirKeys(more)
  {
    more := names;
    if Name(path) !in names {
      more := names[Name(path) := path];
    } else {
      SameName(path, names[Name(path)]);
    }
  }

  lemma SameName(a: string, b: string)
    ensures Name(a) == Name(b) <==> a == b
  {
    assert Name(a)[1..] == a && Name(b)[1..] == b;
  }

  lemma SameSlot(a: string, b: string)
    ensures SlotOf(a) == SlotOf(b) <==> a == b
  {
    assert SlotOf(a)[1..] == a && SlotOf(b)[1..] == b;
  }

  method BuildUpdateRemoveExpression(inputs: seq<(string, Removal)>)
    returns (clauses: seq<RemoveClause>, names: map<string, string>)
    ensures clauses == RemoveClauses(Removed(inputs)) && names == KeyNames(Keys(Removed(inputs)))
  {
    clauses, names := [], map[];
    ghost var done: seq<(string, Option<nat>)> := [];
    var i := 0;
    while i < |inputs|
      invariant 0 <= i <= |inputs| && done == Removed(inputs[..i])
      invariant clauses == RemoveClauses(done) && names == KeyNames(Keys(done))
    {
      var (key, val) := inputs[i];
      RemovedUpTo(inputs, i);
      if !val.Kept? {
        var index := if val.Element? then Some(val.index) else None;
        KeySnoc(done, key, index);
        RemoveSnoc(done, key, index);
        done := done + [(key, index)];
        clauses := clauses + [RemoveClause(Name(key), index)];
        names := names[Name(key) := key];
      }
      i := i + 1;
    }
    assert inputs[..i] == inputs;
  }

  method BuildUpdateDeleteExpression(inputs: seq<(string, Option<Attr>)>)
    returns (clauses: seq<DeleteClause>, names: map<string, string>, values: map<string, Attr>)
    ensures clauses == DeleteClauses(Present(inputs))
    ensures names == KeyNames(Keys(Present(inputs))) && values == Values(AsSet(Present(inputs)))
  {
    clauses, names, values := [], map[], map[];
    ghost var done: seq<(string, Attr)> := [];
    var i := 0;
    while i < |inputs|
      invariant 0 <= i <= |inputs| && done == Present(inputs[..i])
      invariant clauses == DeleteClauses(done) && names == KeyNames(Keys(done)) && values == Values(AsSet(done))
    {
      var (key, val) := inputs[i];
      PresentUpTo(inputs, i);
      if val.Some? {
        KeySnoc(done, key, val.value);
        DeleteSnoc(done, key, val.value);
        DeleteValuesSnoc(done, key, val.value);
        done := done + [(key, val.value)];
        clauses := clauses + [DeleteClause(Name(key), SlotOf(key))];
        names := names[Name(key) := key];
        values := values[SlotOf(key) := val.value];
      }
      i := i + 1;
    }
    assert inputs[..i] == inputs;
  }

  method BuildUpdateExpression(d: Description) returns (c: Compiled)
    ensures c == Compile(d)
  {
    var sets: Option<seq<SetClause>>, removes: Option<seq<RemoveClause>>, deletes: Option<seq<DeleteClause>> := None, None, None;
    var names: map<string, string>, values: map<string, Attr> := map[], map[];
    if d.toSet.Some? {
      var clauses, named, bound := BuildUpdateSetExpression(d.toSet.value);
      sets, names, values := Some(clauses), named, bound;
    }
    var removed: map<string, string> := map[];
    if d.remove.Some? {
      var clauses, named := BuildUpdateRemoveExpression(d.remove.value);
      removes, removed := Some(clauses), named;
    }
    var deleted: map<string, string>, bound: map<string, Attr> := map[], map[];
    if d.delete.Some? {
      var clauses, named, values' := BuildUpdateDeleteExpression(d.delete.value);
      deletes, deleted, bound := Some(clauses), named, values';
    }
    c := Compiled(sets, removes, deletes, names + removed + deleted, values + bound);
  }

  // ---------------------------------------------------------------- DynamoDB

  function SlotsIn(r: Rhs): set<string> {
    match r
    case Slot(s) => {s}
    case IfNotExists(_, s) => {s}
    case Plus(a, s) => SlotsIn(a) + {s}
    case Minus(a, s) => SlotsIn(a) + {s}
    case ListAppend(_, s) => {s}
  }

  function NamesIn(r: Rhs): set<string> {
    match r
    case Slot(_) => {}
    case IfNotExists(n, _) => {n}
    case Plus(a, _) => NamesIn(a)
    case Minus(a, _) => NamesIn(a)
    case ListAppend(n, _) => {n}
  }

  function SetsOf(c: Compiled): seq<SetClause> { if c.sets.Some? then c.sets.value else [] }
  function RemovesOf(c: Compiled): seq<RemoveClause> { if c.removes.Some? then c.removes.value else [] }
  function DeletesOf(c: Compiled): seq<DeleteClause> { if c.deletes.Some? then c.deletes.value else [] }

  ghost predicate UsesSlot(c: Compiled, s: string) {
    || (exists x :: x in SetsOf(c) && s in SlotsIn(x.rhs))
    || (exists x :: x in DeletesOf(c) && s == x.slot)
  }

  ghost predicate UsesName(c: Compiled, n: string) {
    || (exists i :: 0 <= i < |SetsOf(c)| && (n == SetsOf(c)[i].target || n in NamesIn(SetsOf(c)[i].rhs)))
    || n in RemoveTargets(c)
    || n in DeleteTargets(c)
  }

  ghost predicate Meet(a: seq<string>, b: seq<string>) {
    exists x :: x in a && x in b
  }

  function SetTargets(c: Compiled): seq<string> {
    seq(|SetsOf(c)|, i requires 0 <= i < |SetsOf(c)| => SetsOf(c)[i].target)
  }

  function RemoveTargets(c: Compiled): seq<string> {
    seq(|RemovesOf(c)|, i requires 0 <= i < |RemovesOf(c)| => RemovesOf(c)[i].target)
  }

  function DeleteTargets(c: Compiled): seq<string> {
    seq(|DeletesOf(c)|, i requires 0 <= i < |DeletesOf(c)| => DeletesOf(c)[i].target)
  }

  // Some attribute is addressed by two sections.
  ghost predicate Overlap(c: Compiled) {
    Meet(SetTargets(c), RemoveTargets(c)) || Meet(SetTargets(c), DeleteTargets(c)) || Meet(RemoveTargets(c), DeleteTargets(c))
  }

  // The grammar of SET: an operand, or two operands with one operator.
  predicate OneOperator(r: Rhs) {
    match r
    case Plus(a, _) => !a.Plus? && !a.Minus?
    case Minus(a, _) => !a.Plus? && !a.Minus?
    case _ => true
  }

  ghost predicate Grammatical(c: Compiled) {
    forall i :: 0 <= i < |SetsOf(c)| ==> OneOperator(SetsOf(c)[i].rhs)
  }

  // DynamoDB refuses an empty section, more than one operator, a placeholder that is used but not
  // bound, one that is bound but not used, and overlapping paths.
  ghost predicate Accepts(c: Compiled) {
    && c.sets != Some([]) && c.removes != Some([]) && c.deletes != Some([])
    && (c.sets.Some? || c.removes.Some? || c.deletes.Some?)
    && Grammatical(c) && SlotsMatch(c) && NamesMatch(c) && !Overlap(c)
  }

  function AddNumbers(a: Option<Attr>, b: Attr, sign: int): Option<Attr> {
    if a.Some? && a.value.Num? && b.Num? then Some(Num(a.value.number + sign * b.number)) else None
  }

  function AppendTo(item: Item, path: string, more: Attr): Option<Attr> {
    if path in item && item[path].List? && more.List? then Some(List(item[path].items + more.items)) else None
  }

  function FirstOf(item: Item, path: string, other: Attr): Attr {
    if path in item then item[path] else other
  }

  // Right-hand sides read the item as it was.
  function Eval(r: Rhs, names: map<string, string>, values: map<string, Attr>, item: Item): Option<Attr> {
    match r
    case Slot(s) => if s in values then Some(values[s]) else None
    case IfNotExists(n, s) => if n in names && s in values then Some(FirstOf(item, names[n], values[s])) else None
    case Plus(a, s) => if s in values then AddNumbers(Eval(a, names, values, item), values[s], 1) else None
    case Minus(a, s) => if s in values then AddNumbers(Eval(a, names, values, item), values[s], -1) else None
    case ListAppend(n, s) => if n in names && s in values then AppendTo(item, names[n], values[s]) else None
  }

  function RemoveFrom(item: Item, soFar: Item, key: string, index: Option<nat>): Option<Item> {
    if index.None? then Some(soFar - {key})
    else if key !in item || !item[key].List? then None
    else
      var items := item[key].items;
      if index.value >= |items| then Some(soFar)
      else Some(soFar[key := List(items[..index.value] + items[index.value + 1..])])
  }

  function DeleteFrom(item: Item, soFar: Item, key: string, attr: Attr): Option<Item> {
    if !attr.Elements? then None
    else if key !in item then Some(soFar)
    else if !item[key].Elements? then None
    else
      var left := item[key].elements - attr.elements;
      Some(if left == {} then soFar - {key} else soFar[key := Elements(left)])
  }

  function Executed(c: Compiled, item: Item, sets: nat, removes: nat, deletes: nat): Option<Item>
    requires sets <= |SetsOf(c)| && removes <= |RemovesOf(c)| && deletes <= |DeletesOf(c)|
    decreases sets + removes + deletes
  {
    if deletes > 0 then
      var soFar, x := Executed(c, item, sets, removes, deletes - 1), DeletesOf(c)[deletes - 1];
      if soFar.None? || x.target !in c.names || x.slot !in c.values then None
      else DeleteFrom(item, soFar.value, c.names[x.target], c.values[x.slot])
    else if removes > 0 then
      var soFar, x := Executed(c, item, sets, removes - 1, 0), RemovesOf(c)[removes - 1];
      if soFar.None? || x.target !in c.names then None
      else RemoveFrom(item, soFar.value, c.names[x.target], x.index)
    else if sets > 0 then
      var soFar, x := Executed(c, item, sets - 1, 0, 0), SetsOf(c)[sets - 1];
      var v := Eval(x.rhs, c.names, c.values, item);
      if soFar.None? || x.target !in c.names || v.None? then None
      else Some(soFar.value[c.names[x.target] := v.value])
    else
      Some(item)
  }

  // UpdateItem: the new item, or None when the request is refused.
  ghost function Evaluate(c: Compiled, item: Item): Option<Item> {
    if Accepts(c) then Executed(c, item, |SetsOf(c)|, |RemovesOf(c)|, |DeletesOf(c)|) else None
  }

  // ---------------------------------------------------------------- the meaning

  // What one entry of `set` says.
  function Meaning(key: string, v: SetInput, item: Item): Option<Attr> {
    if v.Plain? then Some(v.attr)
    else if v.append.Some? then AppendTo(item, PathOf(v.append.value, key), Written(v.append.value))
    else if v.init.None? then (if key in item then Arithmetic(v, item[key]) else None)
    else Arithmetic(v, FirstOf(item, PathOf(v.init.value, key), Written(v.init.value)))
  }

  function Arithmetic(v: SetInput, start: Attr): Option<Attr>
    requires v.Modified?
  {
    var a := Some(start);
    var b := if v.inc.Some? then AddNumbers(a, v.inc.value, 1) else a;
    if v.dec.Some? then AddNumbers(b, v.dec.value, -1) else b
  }

  // The item after the first entries of each section, given what the entries of `set` come to.
  function Carry(d: Description, item: Item, results: seq<Option<Attr>>, sets: nat, removes: nat, deletes: nat): Option<Item>
    requires |results| == |Sets(d)| && sets <= |Sets(d)| && removes <= |Removes(d)| && deletes <= |Deletes(d)|
    decreases sets + removes + deletes
  {
    if deletes > 0 then
      var soFar, x := Carry(d, item, results, sets, removes, deletes - 1), Deletes(d)[deletes - 1];
      if soFar.None? then None else DeleteFrom(item, soFar.value, x.0, x.1)
    else if removes > 0 then
      var soFar, x := Carry(d, item, results, sets, removes - 1, 0), Removes(d)[removes - 1];
      if soFar.None? then None else RemoveFrom(item, soFar.value, x.0, x.1)
    else if sets > 0 then
      var soFar, v := Carry(d, item, results, sets - 1, 0, 0), results[sets - 1];
      if soFar.None? || v.None? then None else Some(soFar.value[Sets(d)[sets - 1].0 := v.value])
    else
      Some(item)
  }

  function Meanings(d: Description, item: Item): seq<Option<Attr>> {
    seq(|Sets(d)|, i requires 0 <= i < |Sets(d)| => Meaning(Sets(d)[i].0, Sets(d)[i].1, item))
  }

  // What a description says, entry by entry, on the item as it was.
  function Applied(d: Description, item: Item): Option<Item> {
    Carry(d, item, Meanings(d, item), |Sets(d)|, |Removes(d)|, |Deletes(d)|)
  }

  // ---------------------------------------------------------------- conditions on descriptions

  predicate Appends(v: SetInput) {
    v.Modified? && v.append.Some?
  }

  function AppendSlot(e: (string, SetInput)): string
    requires Appends(e.1)
  {
    SlotOf(APPEND + PathOf(e.1.append.value, e.0))
  }

  // The placeholders of an entry: those it binds and those it uses.
  function Footprint(e: (string, SetInput)): set<string> {
    ValuesFor(e.0, e.1).Keys + SlotsIn(RhsFor(e.0, e.1))
  }

  // Two entries share no placeholder, except that of a list both append to.
  ghost predicate SlotsApart(a: (string, SetInput), b: (string, SetInput)) {
    forall s :: s in Footprint(a) && s in Footprint(b) ==>
      Appends(a.1) && Appends(b.1) && s == AppendSlot(a) == AppendSlot(b)
  }

  function OtherSlots(e: (string, SetInput)): set<string>
    requires e.1.Modified?
  {
    (if e.1.init.Some? then {SlotOf(e.0 + INIT)} else {}) + (if e.1.inc.Some? then {SlotOf(e.0 + INC)} else {})
    + (if e.1.dec.Some? then {SlotOf(e.0 + DEC)} else {})
  }

  predicate SelfApart(e: (string, SetInput)) {
    Appends(e.1) ==> AppendSlot(e) !in OtherSlots(e)
  }

  ghost predicate Apart(entries: Entries) {
    && (forall i :: 0 <= i < |entries| ==> SelfApart(entries[i]))
    && (forall i, j :: 0 <= i < j < |entries| ==> entries[i].0 != entries[j].0 && SlotsApart(entries[i], entries[j]))
  }

  predicate DistinctKeys<T>(entries: seq<(string, T)>) {
    forall i, j :: 0 <= i < j < |entries| ==> entries[i].0 != entries[j].0
  }

  // Every section has a key once, and no placeholder is generated twice, except by appends to
  // one list.
  ghost predicate Ordinary(d: Description) {
    && DistinctKeys(Sets(d)) && DistinctKeys(Deletes(d))
    && (forall i :: 0 <= i < |Binders(d)| ==> SelfApart(Binders(d)[i]))
    && (forall i, j :: 0 <= i < j < |Binders(d)| && Binders(d)[i].0 != Binders(d)[j].0 ==> SlotsApart(Binders(d)[i], Binders(d)[j]))
  }

  // Every entry that binds values.
  function Binders(d: Description): Entries {
    Sets(d) + AsSet(Deletes(d))
  }

  // Increments and decrements come with ifNotExists, and listAppend comes alone.
  predicate WellPaired(v: SetInput) {
    || v.Plain?
    || (if v.append.Some? then v.init.None? && v.inc.None? && v.dec.None? else v.init.Some?)
  }

  // Not an increment and a decrement.
  predicate OneStep(v: SetInput) {
    v.Modified? ==> v.inc.None? || v.dec.None?
  }

  // What DynamoDB will take: no section is empty, modifiers are paired, no key is both
  // incremented and decremented, and none is in two sections.
  ghost predicate WellFormed(d: Description) {
    && (d.toSet.Some? ==> Sets(d) != []) && (d.remove.Some? ==> Removes(d) != []) && (d.delete.Some? ==> Deletes(d) != [])
    && (d.toSet.Some? || d.remove.Some? || d.delete.Some?)
    && (forall i :: 0 <= i < |Sets(d)| ==> WellPaired(Sets(d)[i].1) && OneStep(Sets(d)[i].1))
    && SectionsApart(d)
  }

  // Entries that append to one list append the same value.
  ghost predicate AppendsAgree(entries: Entries) {
    forall i, j :: 0 <= i < j < |entries|
                   && Appends(entries[i].1) && Appends(entries[j].1) && AppendSlot(entries[i]) == AppendSlot(entries[j]) ==>
      Used(entries[i].1.append.value) == Used(entries[j].1.append.value)
  }

  // ---------------------------------------------------------------- placeholders do not collide

  // The placeholders that one key generates differ.
  lemma OneKeyApart(k: string)
    ensures SlotOf(k) != SlotOf(k + INIT) && SlotOf(k) != SlotOf(k + INC) && SlotOf(k) != SlotOf(k + DEC)
    ensures SlotOf(k + INIT) != SlotOf(k + INC) && SlotOf(k + INIT) != SlotOf(k + DEC) && SlotOf(k + INC) != SlotOf(k + DEC)
  {
    var a, b, c := SlotOf(k + INIT), SlotOf(k + INC), SlotOf(k + DEC);
    assert |SlotOf(k)| < |a| < |b| && |SlotOf(k)| < |b| == |c|;
    assert b[|b| - 11] == 'I' && c[|c| - 11] == 'D';
  }

  predicate EndsWith(s: string, suffix: string) {
    |suffix| <= |s| && s[|s| - |suffix|..] == suffix
  }

  // A key that no generated placeholder can be mistaken for.
  predicate OrdinaryKey(key: string) {
    !EndsWith(key, INIT) && !EndsWith(key, INC) && !EndsWith(key, DEC) && !(APPEND <= key)
  }

  function Generated(key: string): seq<string> {
    [key, key + INIT, key + INC, key + DEC]
  }

  lemma TailIs(key: string, suffix: string)
    ensures EndsWith(key + suffix, suffix) && (key + suffix)[..|key|] == key
  {
  }

  lemma SuffixesDiffer(k: string, l: string)
    ensures k + INIT != l + INC && k + INIT != l + DEC && k + INC != l + DEC
  {
    var a, b, c, d := k + INIT, l + INC, l + DEC, k + INC;
    assert a[|a| - 1] == 'l' && b[|b| - 1] == 'y' && c[|c| - 1] == 'y';
    assert d[|d| - 11] == 'I' && c[|c| - 11] == 'D';
  }

  lemma KeysApart(k: string, l: string)
    requires k != l && OrdinaryKey(k) && OrdinaryKey(l)
    ensures forall i, j :: 0 <= i < 4 && 0 <= j < 4 ==> Generated(k)[i] != Generated(l)[j]
  {
    TailIs(k, INIT);
    TailIs(k, INC);
    TailIs(k, DEC);
    TailIs(l, INIT);
    TailIs(l, INC);
    TailIs(l, DEC);
    SuffixesDiffer(k, l);
    SuffixesDiffer(l, k);
    assert Generated(k) == [k, k + INIT, k + INC, k + DEC];
    assert Generated(l) == [l, l + INIT, l + INC, l + DEC];
  }

  lemma AppendKeyApart(key: string, path: string)
    requires OrdinaryKey(key)
    ensures forall i :: 0 <= i < 4 ==> Generated(key)[i] != APPEND + path
  {
    var slot := APPEND + path;
    assert APPEND <= slot;
    var n := |key|;
    if n < |APPEND| {
      assert slot[n] == APPEND[n] && slot[n] != 'I' && slot[n] != 'D';
    } else {
      assert slot[..|APPEND|] == APPEND;
    }
    assert (key + INIT)[n] == 'I' && (key + INC)[n] == 'I' && (key + DEC)[n] == 'D';
  }

  // A placeholder of an entry comes from its key, or is that of the list it appends to.
  lemma FootprintIsGenerated(e: (string, SetInput), s: string)
    requires s in Footprint(e)
    ensures (exists i :: 0 <= i < 4 && s == SlotOf(Generated(e.0)[i])) || (Appends(e.1) && s == AppendSlot(e))
  {
    var g := Generated(e.0);
    assert g[0] == e.0 && g[1] == e.0 + INIT && g[2] == e.0 + INC && g[3] == e.0 + DEC;
    assert s in {SlotOf(g[0]), SlotOf(g[1]), SlotOf(g[2]), SlotOf(g[3])} || (Appends(e.1) && s == AppendSlot(e)) by {
      if e.1.Modified? && e.1.append.None? {
        var a := if e.1.inc.Some? then Plus(Stem(e.0, e.1), SlotOf(e.0 + INC)) else Stem(e.0, e.1);
        assert SlotsIn(a) <= {SlotOf(g[0]), SlotOf(g[1]), SlotOf(g[2])};
      }
    }
  }

  // A condition that is easy to check: keys that differ, do not end like a generated placeholder
  // and do not begin like one.
  lemma OrdinaryKeysAreApart(a: (string, SetInput), b: (string, SetInput))
    requires a.0 != b.0 && OrdinaryKey(a.0) && OrdinaryKey(b.0)
    ensures SelfApart(a) && SlotsApart(a, b)
  {
    forall s, t: string ensures SlotOf(s) == SlotOf(t) <==> s == t {
      SameSlot(s, t);
    }
    KeysApart(a.0, b.0);
    if Appends(a.1) {
      AppendKeyApart(a.0, PathOf(a.1.append.value, a.0));
      AppendKeyApart(b.0, PathOf(a.1.append.value, a.0));
      var g := Generated(a.0);
      assert g[1] == a.0 + INIT && g[2] == a.0 + INC && g[3] == a.0 + DEC;
    }
    if Appends(b.1) {
      AppendKeyApart(a.0, PathOf(b.1.append.value, b.0));
    }
    forall s | s in Footprint(a) && s in Footprint(b)
      ensures Appends(a.1) && Appends(b.1) && s == AppendSlot(a) == AppendSlot(b)
    {
      FootprintIsGenerated(a, s);
      FootprintIsGenerated(b, s);
    }
  }

  // ---------------------------------------------------------------- what is bound

  predicate Binds(e: (string, SetInput), s: string) {
    s in ValuesFor(e.0, e.1)
  }

  predicate Uses(e: (string, SetInput), s: string) {
    s in SlotsIn(RhsFor(e.0, e.1))
  }

  predicate NamedBy(e: (string, SetInput), name: string) {
    name in NamesFor(e.0, e.1)
  }

  lemma {:induction false} ValuesDomain(entries: Entries, s: string)
    ensures s in Values(entries) <==> exists i :: 0 <= i < |entries| && Binds(entries[i], s)
  {
    if entries != [] {
      var n := |entries| - 1;
      ValuesDomain(entries[..n], s);
      assert forall i :: 0 <= i < n ==> entries[..n][i] == entries[i];
    }
  }

  lemma {:induction false} NamesDomain(entries: Entries, name: string)
    ensures name in Names(entries) <==> exists i :: 0 <= i < |entries| && NamedBy(entries[i], name)
  {
    if entries != [] {
      var n := |entries| - 1;
      NamesDomain(entries[..n], name);
      assert forall i :: 0 <= i < n ==> entries[..n][i] == entries[i];
    }
  }

  lemma {:induction false} NamesAreOfKeys(entries: Entries)
    ensures NamesTheirKeys(Names(entries))
  {
    if entries != [] {
      NamesAreOfKeys(entries[..|entries| - 1]);
    }
  }

  lemma {:induction false} KeyNamesDomain(keys: seq<string>, name: string)
    ensures name in KeyNames(keys) <==> exists i :: 0 <= i < |keys| && name == Name(keys[i])
    ensures NamesTheirKeys(KeyNames(keys))
  {
    if keys != [] {
      var n := |keys| - 1;
      KeyNamesDomain(keys[..n], name);
      assert forall i :: 0 <= i < n ==> keys[..n][i] == keys[i];
    }
  }

  lemma MapAssociates<V>(a: map<string, V>, b: map<string, V>, c: map<string, V>)
    ensures a + (b + c) == (a + b) + c
  {
  }

  lemma {:induction false} ValuesConcat(a: Entries, b: Entries)
    ensures Values(a + b) == Values(a) + Values(b)
  {
    if b == [] {
      assert a + b == a;
    } else {
      var n := |b| - 1;
      assert a + b == (a + b[..n]) + [(b[n].0, b[n].1)];
      SetSnoc(a + b[..n], b[n].0, b[n].1);
      ValuesConcat(a, b[..n]);
      MapAssociates(Values(a), Values(b[..n]), ValuesFor(b[n].0, b[n].1));
    }
  }

  // Each entry finds its own values, but for a list that another entry appends to as well.
  lemma {:induction false} ValuesAt(entries: Entries, i: nat, s: string)
    requires Apart(entries) && i < |entries| && Binds(entries[i], s)
    ensures s in Values(entries)
    ensures !(Appends(entries[i].1) && s == AppendSlot(entries[i])) || AppendsAgree(entries) ==>
              Values(entries)[s] == ValuesFor(entries[i].0, entries[i].1)[s]
  {
    var n := |entries| - 1;
    if i < n {
      ValuesAt(entries[..n], i, s);
      assert SlotsApart(entries[i], entries[n]);
      assert s in Footprint(entries[i]) && (Binds(entries[n], s) ==> s in Footprint(entries[n]));
      assert AppendsAgree(entries) ==> AppendsAgree(entries[..n]);
    }
  }

  lemma BoundSlots(e: (string, SetInput))
    ensures ValuesFor(e.0, e.1).Keys ==
            if e.1.Plain? then {SlotOf(e.0)} else OtherSlots(e) + if Appends(e.1) then {AppendSlot(e)} else {}
    ensures Appends(e.1) ==> ValuesFor(e.0, e.1)[AppendSlot(e)] == Used(e.1.append.value)
  {
  }

  lemma UsedSlots(e: (string, SetInput))
    ensures SlotsIn(RhsFor(e.0, e.1)) ==
            if e.1.Plain? then {SlotOf(e.0)}
            else if Appends(e.1) then {AppendSlot(e)}
            else if e.1.init.Some? then OtherSlots(e)
            else OtherSlots(e) + {SlotOf(e.0)}
  {
    if e.1.Modified? && e.1.append.None? {
      var a := if e.1.inc.Some? then Plus(Stem(e.0, e.1), SlotOf(e.0 + INC)) else Stem(e.0, e.1);
      assert SlotsIn(a) == SlotsIn(Stem(e.0, e.1)) + if e.1.inc.Some? then {SlotOf(e.0 + INC)} else {};
    }
  }

  lemma NamedNames(e: (string, SetInput))
    requires WellPaired(e.1)
    ensures NamesFor(e.0, e.1).Keys == {Name(e.0)} + NamesIn(RhsFor(e.0, e.1))
  {
    if e.1.Modified? && e.1.append.None? {
      var a := if e.1.inc.Some? then Plus(Stem(e.0, e.1), SlotOf(e.0 + INC)) else Stem(e.0, e.1);
      assert NamesIn(RhsFor(e.0, e.1)) == NamesIn(a) == NamesIn(Stem(e.0, e.1));
    }
  }

  // An entry uses exactly the placeholders it binds if and only if its modifiers are paired.
  lemma PairedIff(e: (string, SetInput))
    requires SelfApart(e)
    ensures ValuesFor(e.0, e.1).Keys == SlotsIn(RhsFor(e.0, e.1)) <==> WellPaired(e.1)
  {
    BoundSlots(e);
    UsedSlots(e);
    OneKeyApart(e.0);
    if e.1.Modified? && e.1.append.None? && e.1.init.None? {
      assert SlotOf(e.0) !in OtherSlots(e);
    } else if Appends(e.1) {
      assert OtherSlots(e) == {} <==> WellPaired(e.1) by {
        assert e.1.init.Some? ==> SlotOf(e.0 + INIT) in OtherSlots(e);
        assert e.1.inc.Some? ==> SlotOf(e.0 + INC) in OtherSlots(e);
        assert e.1.dec.Some? ==> SlotOf(e.0 + DEC) in OtherSlots(e);
      }
      assert OtherSlots(e) + {AppendSlot(e)} == {AppendSlot(e)} <==> OtherSlots(e) == {} by {
        if s :| s in OtherSlots(e) {
          assert s in OtherSlots(e) + {AppendSlot(e)};
        }
      }
    }
  }

  // ---------------------------------------------------------------- what DynamoDB accepts

  lemma CompiledValues(d: Description, s: string)
    ensures s in Compile(d).values <==> exists i :: 0 <= i < |Binders(d)| && Binds(Binders(d)[i], s)
  {
    ValuesConcat(Sets(d), AsSet(Deletes(d)));
    ValuesDomain(Binders(d), s);
  }

  lemma CompiledSetSlots(d: Description, s: string)
    ensures (exists x :: x in SetsOf(Compile(d)) && s in SlotsIn(x.rhs))
            <==> exists i :: 0 <= i < |Sets(d)| && Uses(Sets(d)[i], s)
  {
    var sets := SetsOf(Compile(d));
    if i :| 0 <= i < |Sets(d)| && Uses(Sets(d)[i], s) {
      assert sets[i] in sets && s in SlotsIn(sets[i].rhs);
    }
    if x :| x in sets && s in SlotsIn(x.rhs) {
      var i :| 0 <= i < |sets| && sets[i] == x;
      assert Uses(Sets(d)[i], s);
    }
  }

  lemma CompiledDeleteSlots(d: Description, s: string)
    ensures (exists x :: x in DeletesOf(Compile(d)) && s == x.slot)
            <==> exists i :: 0 <= i < |Deletes(d)| && Uses(AsSet(Deletes(d))[i], s)
  {
    var deletes := DeletesOf(Compile(d));
    if i :| 0 <= i < |Deletes(d)| && Uses(AsSet(Deletes(d))[i], s) {
      assert deletes[i] in deletes && s == deletes[i].slot;
    }
    if x :| x in deletes && s == x.slot {
      var i :| 0 <= i < |deletes| && deletes[i] == x;
      assert Uses(AsSet(Deletes(d))[i], s);
    }
  }

  lemma CompiledSlots(d: Description, s: string)
    ensures UsesSlot(Compile(d), s) <==> exists i :: 0 <= i < |Binders(d)| && Uses(Binders(d)[i], s)
  {
    CompiledSetSlots(d, s);
    CompiledDeleteSlots(d, s);
    UsedInConcat(Sets(d), AsSet(Deletes(d)), s);
    assert Binders(d) == Sets(d) + AsSet(Deletes(d)) && |AsSet(Deletes(d))| == |Deletes(d)|;
  }

  lemma UsedInConcat(a: Entries, b: Entries, s: string)
    ensures (exists i :: 0 <= i < |a + b| && Uses((a + b)[i], s))
            <==> (exists i :: 0 <= i < |a| && Uses(a[i], s)) || (exists i :: 0 <= i < |b| && Uses(b[i], s))
  {
    var n := |a|;
    assert forall i :: 0 <= i < n ==> (a + b)[i] == a[i];
    assert forall i :: 0 <= i < |b| ==> (a + b)[n + i] == b[i];
    if i :| 0 <= i < |a + b| && Uses((a + b)[i], s) {
      assert i >= n ==> Uses(b[i - n], s);
    }
  }

  ghost predicate SlotsMatch(c: Compiled) {
    forall s :: s in c.values <==> UsesSlot(c, s)
  }

  ghost predicate NamesMatch(c: Compiled) {
    forall n :: n in c.names <==> UsesName(c, n)
  }

  ghost predicate AllPaired(d: Description) {
    forall i :: 0 <= i < |Binders(d)| ==> WellPaired(Binders(d)[i].1)
  }

  // A placeholder of one entry belongs to no other entry, unless both append to one list.
  lemma OwnSlot(entries: Entries, i: nat, j: nat, s: string)
    requires Apart(entries) && i < |entries| && j < |entries|
    requires Binds(entries[i], s) || Uses(entries[i], s)
    requires Binds(entries[j], s) || Uses(entries[j], s)
    ensures i == j || (Binds(entries[i], s) && Uses(entries[i], s))
  {
    BoundSlots(entries[i]);
    UsedSlots(entries[i]);
    assert s in Footprint(entries[i]) && s in Footprint(entries[j]);
    if i < j {
      assert SlotsApart(entries[i], entries[j]);
    } else if j < i {
      assert SlotsApart(entries[j], entries[i]);
    }
  }

  lemma SlotsMatchIff(d: Description)
    requires Apart(Binders(d))
    ensures SlotsMatch(Compile(d)) <==> AllPaired(d)
  {
    var c := Compile(d);
    if AllPaired(d) {
      forall s ensures s in c.values <==> UsesSlot(c, s) {
        CompiledValues(d, s);
        CompiledSlots(d, s);
        forall i | 0 <= i < |Binders(d)| ensures Binds(Binders(d)[i], s) <==> Uses(Binders(d)[i], s) {
          PairedIff(Binders(d)[i]);
        }
      }
    }
    if SlotsMatch(c) {
      forall i | 0 <= i < |Binders(d)| ensures WellPaired(Binders(d)[i].1) {
        var e := Binders(d)[i];
        forall s ensures Binds(e, s) <==> Uses(e, s) {
          BindsIffUses(d, i, s);
        }
        assert forall s :: s in ValuesFor(e.0, e.1).Keys <==> Binds(e, s);
        assert forall s :: s in SlotsIn(RhsFor(e.0, e.1)) <==> Uses(e, s);
        PairedIff(e);
      }
    }
  }

  lemma BindsIffUses(d: Description, i: nat, s: string)
    requires Apart(Binders(d)) && SlotsMatch(Compile(d)) && i < |Binders(d)|
    ensures Binds(Binders(d)[i], s) <==> Uses(Binders(d)[i], s)
  {
    CompiledValues(d, s);
    CompiledSlots(d, s);
    assert s in Compile(d).values <==> UsesSlot(Compile(d), s);
    if Binds(Binders(d)[i], s) {
      var j :| 0 <= j < |Binders(d)| && Uses(Binders(d)[j], s);
      OwnSlot(Binders(d), i, j, s);
    } else if Uses(Binders(d)[i], s) {
      var j :| 0 <= j < |Binders(d)| && Binds(Binders(d)[j], s);
      OwnSlot(Binders(d), i, j, s);
    }
  }

  ghost predicate SetNames(d: Description, n: string) {
    exists i :: 0 <= i < |Sets(d)| && NamedBy(Sets(d)[i], n)
  }

  function NamesOf(keys: seq<string>): seq<string> {
    seq(|keys|, i requires 0 <= i < |keys| => Name(keys[i]))
  }

  lemma TargetsAreNames(d: Description)
    ensures SetTargets(Compile(d)) == NamesOf(Keys(Sets(d)))
    ensures RemoveTargets(Compile(d)) == NamesOf(Keys(Removes(d)))
    ensures DeleteTargets(Compile(d)) == NamesOf(Keys(Deletes(d)))
  {
  }

  lemma KeyNamesAre(keys: seq<string>, n: string)
    ensures n in KeyNames(keys) <==> n in NamesOf(keys)
  {
    KeyNamesDomain(keys, n);
    if i :| 0 <= i < |keys| && n == Name(keys[i]) {
      assert NamesOf(keys)[i] == n;
    }
  }

  lemma CompiledNames(d: Description, n: string)
    ensures n in Compile(d).names <==> SetNames(d, n) || n in NamesOf(Keys(Removes(d))) || n in NamesOf(Keys(Deletes(d)))
  {
    NamesDomain(Sets(d), n);
    KeyNamesAre(Keys(Removes(d)), n);
    KeyNamesAre(Keys(Deletes(d)), n);
  }

  lemma CompiledNamesTheirKeys(d: Description)
    ensures NamesTheirKeys(Compile(d).names)
  {
    NamesAreOfKeys(Sets(d));
    KeyNamesDomain(Keys(Removes(d)), "");
    KeyNamesDomain(Keys(Deletes(d)), "");
  }

  lemma NamesMatchWhenPaired(d: Description)
    requires AllPaired(d) && Apart(Binders(d))
    ensures NamesMatch(Compile(d))
  {
    var c := Compile(d);
    TargetsAreNames(d);
    forall i | 0 <= i < |Sets(d)|
      ensures SetsOf(c)[i] == SetClause(Name(Sets(d)[i].0), RhsFor(Sets(d)[i].0, Sets(d)[i].1))
      ensures NamesFor(Sets(d)[i].0, Sets(d)[i].1).Keys == {Name(Sets(d)[i].0)} + NamesIn(RhsFor(Sets(d)[i].0, Sets(d)[i].1))
    {
      assert Binders(d)[i] == Sets(d)[i];
      NamedNames(Sets(d)[i]);
    }
    forall n ensures n in c.names <==> UsesName(c, n) {
      CompiledNames(d, n);
    }
  }

  lemma NamesMeetIff(a: seq<string>, b: seq<string>)
    ensures Meet(NamesOf(a), NamesOf(b)) <==> Meet(a, b)
  {
    if x :| x in a && x in b {
      var i :| 0 <= i < |a| && a[i] == x;
      var j :| 0 <= j < |b| && b[j] == x;
      assert NamesOf(a)[i] == Name(x) == NamesOf(b)[j];
      assert Name(x) in NamesOf(a) && Name(x) in NamesOf(b);
    }
    if n :| n in NamesOf(a) && n in NamesOf(b) {
      var i :| 0 <= i < |a| && NamesOf(a)[i] == n;
      var j :| 0 <= j < |b| && NamesOf(b)[j] == n;
      assert Name(a[i]) == n == Name(b[j]);
      SameName(a[i], b[j]);
      var key := a[i];
      assert key in a && key in b;
    }
  }

  ghost predicate SectionsApart(d: Description) {
    && !Meet(Keys(Sets(d)), Keys(Removes(d))) && !Meet(Keys(Sets(d)), Keys(Deletes(d)))
    && !Meet(Keys(Removes(d)), Keys(Deletes(d)))
  }

  lemma OverlapIff(d: Description)
    ensures Overlap(Compile(d)) <==> !SectionsApart(d)
  {
    TargetsAreNames(d);
    NamesMeetIff(Keys(Sets(d)), Keys(Removes(d)));
    NamesMeetIff(Keys(Sets(d)), Keys(Deletes(d)));
    NamesMeetIff(Keys(Removes(d)), Keys(Deletes(d)));
  }

  lemma OrdinaryIsApart(d: Description)
    requires Ordinary(d) && SectionsApart(d)
    ensures Apart(Binders(d))
  {
    var b, n := Binders(d), |Sets(d)|;
    forall i, j | 0 <= i < j < |b| ensures b[i].0 != b[j].0 && SlotsApart(b[i], b[j]) {
      if j < n {
        assert b[i] == Sets(d)[i] && b[j] == Sets(d)[j];
      } else if i >= n {
        assert b[i].0 == Deletes(d)[i - n].0 && b[j].0 == Deletes(d)[j - n].0;
      } else {
        assert Keys(Sets(d))[i] == b[i].0 && b[i].0 in Keys(Sets(d));
        assert Keys(Deletes(d))[j - n] == b[j].0 && b[j].0 in Keys(Deletes(d));
      }
    }
  }

  lemma GrammaticalIff(d: Description)
    requires forall i :: 0 <= i < |Sets(d)| ==> WellPaired(Sets(d)[i].1)
    ensures Grammatical(Compile(d)) <==> forall i :: 0 <= i < |Sets(d)| ==> OneStep(Sets(d)[i].1)
  {
    var c := Compile(d);
    forall i | 0 <= i < |Sets(d)| ensures OneOperator(SetsOf(c)[i].rhs) <==> OneStep(Sets(d)[i].1) {
      assert SetsOf(c)[i].rhs == RhsFor(Sets(d)[i].0, Sets(d)[i].1);
      OneOperatorIff(Sets(d)[i].0, Sets(d)[i].1);
    }
  }

  lemma OneOperatorIff(key: string, v: SetInput)
    requires WellPaired(v)
    ensures OneOperator(RhsFor(key, v)) <==> OneStep(v)
  {
  }

  // DynamoDB takes the request if and only if the description is well formed: every placeholder
  // that is used is bound, every bound one is used, and no value has two operators.
  lemma AcceptedIff(d: Description)
    requires Ordinary(d)
    ensures Accepts(Compile(d)) <==> WellFormed(d)
  {
    var c := Compile(d);
    OverlapIff(d);
    PairedSets(d);
    if SectionsApart(d) {
      OrdinaryIsApart(d);
      SlotsMatchIff(d);
      if AllPaired(d) {
        NamesMatchWhenPaired(d);
        GrammaticalIff(d);
      }
    }
    assert |SetsOf(c)| == |Sets(d)| && |RemovesOf(c)| == |Removes(d)| && |DeletesOf(c)| == |Deletes(d)|;
  }

  lemma PairedSets(d: Description)
    ensures AllPaired(d) <==> forall i :: 0 <= i < |Sets(d)| ==> WellPaired(Sets(d)[i].1)
  {
    assert forall i :: 0 <= i < |Sets(d)| ==> Binders(d)[i] == Sets(d)[i];
  }

  // ---------------------------------------------------------------- what an entry comes to

  lemma NameOfPath(c: Compiled, path: string)
    requires NamesTheirKeys(c.names) && Name(path) in c.names
    ensures c.names[Name(path)] == path
  {
    SameName(path, c.names[Name(path)]);
  }

  lemma BindsItsValues(d: Description, i: nat, s: string)
    requires Apart(Binders(d)) && i < |Binders(d)| && Binds(Binders(d)[i], s)
    ensures var e, values := Binders(d)[i], Compile(d).values;
            && s in values
            && (!(Appends(e.1) && s == AppendSlot(e)) || AppendsAgree(Binders(d)) ==> values[s] == ValuesFor(e.0, e.1)[s])
  {
    ValuesConcat(Sets(d), AsSet(Deletes(d)));
    ValuesAt(Binders(d), i, s);
  }

  lemma BindsItsNames(d: Description, i: nat, n: string)
    requires i < |Binders(d)| && NamedBy(Binders(d)[i], n)
    ensures n in Compile(d).names
  {
    CompiledNames(d, n);
    if i < |Sets(d)| {
      assert SetNames(d, n);
    } else {
      assert NamesOf(Keys(Deletes(d)))[i - |Sets(d)|] == n;
    }
  }

  // A name that an entry uses is bound to the path it stands for.
  lemma NamedPath(d: Description, i: nat, path: string)
    requires i < |Binders(d)| && WellPaired(Binders(d)[i].1)
    requires path == Binders(d)[i].0 || Name(path) in NamesIn(RhsFor(Binders(d)[i].0, Binders(d)[i].1))
    ensures Name(path) in Compile(d).names && Compile(d).names[Name(path)] == path
  {
    NamedNames(Binders(d)[i]);
    assert NamedBy(Binders(d)[i], Name(path));
    BindsItsNames(d, i, Name(path));
    CompiledNamesTheirKeys(d);
    NameOfPath(Compile(d), path);
  }

  function EvalAt(d: Description, i: nat, item: Item): Option<Attr>
    requires i < |Sets(d)|
  {
    Eval(RhsFor(Sets(d)[i].0, Sets(d)[i].1), Compile(d).names, Compile(d).values, item)
  }

  // A plain entry comes to its value.
  lemma PlainEvaluates(d: Description, i: nat, item: Item)
    requires Apart(Binders(d)) && i < |Sets(d)| && Sets(d)[i].1.Plain?
    ensures EvalAt(d, i, item) == Some(Sets(d)[i].1.attr)
  {
    assert Binders(d)[i] == Sets(d)[i];
    BindsItsValues(d, i, SlotOf(Sets(d)[i].0));
  }

  // An append comes to the list with whatever value is bound for it.
  lemma AppendEvaluates(d: Description, i: nat, item: Item)
    requires Apart(Binders(d)) && i < |Sets(d)| && Appends(Sets(d)[i].1) && WellPaired(Sets(d)[i].1)
    ensures var e, values := Sets(d)[i], Compile(d).values;
            && AppendSlot(e) in values
            && EvalAt(d, i, item) == AppendTo(item, PathOf(e.1.append.value, e.0), values[AppendSlot(e)])
            && (AppendsAgree(Binders(d)) ==> values[AppendSlot(e)] == Used(e.1.append.value))
  {
    var e := Sets(d)[i];
    assert Binders(d)[i] == e;
    BoundSlots(e);
    BindsItsValues(d, i, AppendSlot(e));
    NamedPath(d, i, PathOf(e.1.append.value, e.0));
  }

  // The values of an entry that starts from ifNotExists, placeholder by placeholder.
  lemma OwnValues(key: string, v: SetInput)
    requires v.Modified? && v.append.None? && v.init.Some?
    ensures var m := ValuesFor(key, v);
            && SlotOf(key + INIT) in m && m[SlotOf(key + INIT)] == Used(v.init.value)
            && (v.inc.Some? ==> SlotOf(key + INC) in m && m[SlotOf(key + INC)] == v.inc.value)
            && (v.dec.Some? ==> SlotOf(key + DEC) in m && m[SlotOf(key + DEC)] == v.dec.value)
  {
    OneKeyApart(key);
  }

  // An entry that starts from ifNotExists comes to its arithmetic on the value that is taken
  // for its start.
  lemma StartEvaluates(d: Description, i: nat, item: Item)
    requires Apart(Binders(d)) && i < |Sets(d)|
    requires Sets(d)[i].1.Modified? && Sets(d)[i].1.append.None? && Sets(d)[i].1.init.Some?
    ensures var (key, v) := Sets(d)[i];
            EvalAt(d, i, item) == Arithmetic(v, FirstOf(item, PathOf(v.init.value, key), Used(v.init.value)))
  {
    var (key, v) := Sets(d)[i];
    assert Binders(d)[i] == Sets(d)[i];
    OwnValues(key, v);
    BindsItsValues(d, i, SlotOf(key + INIT));
    if v.inc.Some? {
      BindsItsValues(d, i, SlotOf(key + INC));
    }
    if v.dec.Some? {
      BindsItsValues(d, i, SlotOf(key + DEC));
    }
    var path := PathOf(v.init.value, key);
    var a := if v.inc.Some? then Plus(Stem(key, v), SlotOf(key + INC)) else Stem(key, v);
    assert NamesIn(RhsFor(key, v)) == NamesIn(a) == NamesIn(Stem(key, v)) == {Name(path)};
    NamedPath(d, i, path);
    var c, start := Compile(d), FirstOf(item, path, Used(v.init.value));
    assert Eval(Stem(key, v), c.names, c.values, item) == Some(start);
    assert Eval(a, c.names, c.values, item) == if v.inc.Some? then AddNumbers(Some(start), v.inc.value, 1) else Some(start);
  }

  // An initial value that is falsy finds the attribute it is meant for.
  predicate StartFound(e: (string, SetInput), item: Item) {
    e.1.Modified? && e.1.init.Some? && HasFalsyValue(e.1.init.value) ==> PathOf(e.1.init.value, e.0) in item
  }

  // An entry that can be carried out comes to what it says if and only if its own append value
  // is bound and a falsy start finds its attribute.
  lemma EntryMeansIff(d: Description, i: nat, item: Item)
    requires Apart(Binders(d)) && i < |Sets(d)| && WellPaired(Sets(d)[i].1)
    requires Meaning(Sets(d)[i].0, Sets(d)[i].1, item).Some?
    ensures var e := Sets(d)[i];
            && (Appends(e.1) ==> AppendSlot(e) in Compile(d).values)
            && (EvalAt(d, i, item) == Meaning(e.0, e.1, item) <==>
                  (if Appends(e.1) then Compile(d).values[AppendSlot(e)] == Used(e.1.append.value) else StartFound(e, item)))
            && (Appends(e.1) ==> Used(e.1.append.value) == Written(e.1.append.value))
  {
    var (key, v) := Sets(d)[i];
    if v.Plain? {
      PlainEvaluates(d, i, item);
    } else if v.append.Some? {
      AppendEvaluates(d, i, item);
      var path, bound := PathOf(v.append.value, key), Compile(d).values[AppendSlot(Sets(d)[i])];
      assert Written(v.append.value).List?;
      AppendCancels(item, path, bound, Written(v.append.value));
    } else {
      StartEvaluates(d, i, item);
      var path := PathOf(v.init.value, key);
      StartMatters(v, FirstOf(item, path, Used(v.init.value)), FirstOf(item, path, Written(v.init.value)));
      FalsyIsNotTaken(v.init.value);
    }
  }

  lemma AppendCancels(item: Item, path: string, a: Attr, b: Attr)
    requires AppendTo(item, path, b).Some?
    ensures AppendTo(item, path, a) == AppendTo(item, path, b) <==> a == b
  {
    if AppendTo(item, path, a).Some? {
      var n := |item[path].items|;
      assert (item[path].items + a.items)[n..] == a.items && (item[path].items + b.items)[n..] == b.items;
    }
  }

  lemma StartMatters(v: SetInput, a: Attr, b: Attr)
    requires v.Modified? && Arithmetic(v, b).Some?
    ensures Arithmetic(v, a) == Arithmetic(v, b) <==> a == b
  {
  }

  lemma FalsyIsNotTaken(op: Attr)
    ensures Used(op) == Written(op) <==> !HasFalsyValue(op)
  {
    if HasFalsyValue(op) {
      assert op.Map? && !Written(op).Map?;
    }
  }

  // ---------------------------------------------------------------- meaning is preserved

  function Evals(d: Description, item: Item): seq<Option<Attr>> {
    seq(|Sets(d)|, i requires 0 <= i < |Sets(d)| => EvalAt(d, i, item))
  }

  lemma RemoveNamed(d: Description, i: nat)
    requires i < |Removes(d)|
    ensures var n := Name(Removes(d)[i].0); n in Compile(d).names && Compile(d).names[n] == Removes(d)[i].0
  {
    var n := Name(Removes(d)[i].0);
    assert NamesOf(Keys(Removes(d)))[i] == n;
    CompiledNames(d, n);
    CompiledNamesTheirKeys(d);
    NameOfPath(Compile(d), Removes(d)[i].0);
  }

  lemma SetStep(d: Description, i: nat, item: Item)
    requires AllPaired(d) && i < |Sets(d)|
    ensures var c, key := Compile(d), Sets(d)[i].0;
            && i < |SetsOf(c)| && SetsOf(c)[i].target == Name(key)
            && Name(key) in c.names && c.names[Name(key)] == key
            && Eval(SetsOf(c)[i].rhs, c.names, c.values, item) == Evals(d, item)[i]
  {
    assert Binders(d)[i] == Sets(d)[i];
    NamedPath(d, i, Sets(d)[i].0);
  }

  lemma DeleteStep(d: Description, i: nat)
    requires Apart(Binders(d)) && i < |Deletes(d)|
    ensures var c, (key, attr) := Compile(d), Deletes(d)[i];
            && Name(key) in c.names && c.names[Name(key)] == key
            && SlotOf(key) in c.values && c.values[SlotOf(key)] == attr
            && DeletesOf(c)[i] == DeleteClause(Name(key), SlotOf(key))
  {
    var j := |Sets(d)| + i;
    assert Binders(d)[j] == (Deletes(d)[i].0, Plain(Deletes(d)[i].1));
    BindsItsValues(d, j, SlotOf(Deletes(d)[i].0));
    NamedPath(d, j, Deletes(d)[i].0);
  }

  lemma {:induction false} ExecutedIsCarry(d: Description, item: Item, sets: nat, removes: nat, deletes: nat)
    requires Apart(Binders(d)) && AllPaired(d)
    requires sets <= |Sets(d)| && removes <= |Removes(d)| && deletes <= |Deletes(d)|
    ensures Executed(Compile(d), item, sets, removes, deletes) == Carry(d, item, Evals(d, item), sets, removes, deletes)
    decreases sets + removes + deletes
  {
    if deletes > 0 {
      ExecutedIsCarry(d, item, sets, removes, deletes - 1);
      DeleteStep(d, deletes - 1);
    } else if removes > 0 {
      ExecutedIsCarry(d, item, sets, removes - 1, 0);
      RemoveNamed(d, removes - 1);
    } else if sets > 0 {
      ExecutedIsCarry(d, item, sets - 1, 0, 0);
      SetStep(d, sets - 1, item);
    }
  }

  // A description that is carried out leaves what every entry of `set` came to under its key.
  lemma {:induction false} CarryKeeps(d: Description, item: Item, results: seq<Option<Attr>>, sets: nat, removes: nat, deletes: nat, i: nat)
    requires DistinctKeys(Sets(d)) && SectionsApart(d) && |results| == |Sets(d)|
    requires i < sets <= |Sets(d)| && removes <= |Removes(d)| && deletes <= |Deletes(d)|
    requires Carry(d, item, results, sets, removes, deletes).Some?
    ensures results[i].Some?
    ensures var t := Carry(d, item, results, sets, removes, deletes).value;
            Sets(d)[i].0 in t && t[Sets(d)[i].0] == results[i].value
    decreases sets + removes + deletes
  {
    var key := Sets(d)[i].0;
    assert Keys(Sets(d))[i] == key && key in Keys(Sets(d));
    if deletes > 0 {
      CarryKeeps(d, item, results, sets, removes, deletes - 1, i);
      assert Keys(Deletes(d))[deletes - 1] in Keys(Deletes(d));
    } else if removes > 0 {
      CarryKeeps(d, item, results, sets, removes - 1, 0, i);
      assert Keys(Removes(d))[removes - 1] in Keys(Removes(d));
    } else if i < sets - 1 {
      CarryKeeps(d, item, results, sets - 1, 0, 0, i);
    }
  }

  lemma EvaluateIsCarry(d: Description, item: Item)
    requires Ordinary(d) && WellFormed(d)
    ensures Apart(Binders(d)) && AllPaired(d)
    ensures Evaluate(Compile(d), item) == Carry(d, item, Evals(d, item), |Sets(d)|, |Removes(d)|, |Deletes(d)|)
  {
    AcceptedIff(d);
    OrdinaryIsApart(d);
    PairedSets(d);
    ExecutedIsCarry(d, item, |Sets(d)|, |Removes(d)|, |Deletes(d)|);
  }

  // A description that can be carried out is carried out as written if and only if every entry
  // comes to what it says.
  lemma EvaluatedAsWrittenIff(d: Description, item: Item)
    requires Ordinary(d) && WellFormed(d) && Applied(d, item).Some?
    ensures Evaluate(Compile(d), item) == Applied(d, item) <==> Evals(d, item) == Meanings(d, item)
    ensures forall i :: 0 <= i < |Sets(d)| ==> Meanings(d, item)[i].Some?
  {
    EvaluateIsCarry(d, item);
    var r, a, b := |Removes(d)|, Evals(d, item), Meanings(d, item);
    forall i | 0 <= i < |Sets(d)| ensures b[i].Some? {
      CarryKeeps(d, item, b, |Sets(d)|, r, |Deletes(d)|, i);
    }
    if Evaluate(Compile(d), item) == Applied(d, item) {
      forall i | 0 <= i < |Sets(d)| ensures a[i] == b[i] {
        CarryKeeps(d, item, a, |Sets(d)|, r, |Deletes(d)|, i);
        CarryKeeps(d, item, b, |Sets(d)|, r, |Deletes(d)|, i);
      }
      assert a == b;
    }
  }

  // A falsy start, of any entry, finds its attribute.
  predicate StartsFound(d: Description, item: Item) {
    forall i :: 0 <= i < |Sets(d)| ==> StartFound(Sets(d)[i], item)
  }

  // The compiler, exactly. Where a description can be carried out, the compiled expression does
  // to the item what is written, entry by entry, if and only if the description is well formed,
  // entries that append to one list append the same value, and every falsy start finds its
  // attribute.
  lemma MeaningIsKeptIff(d: Description, item: Item)
    requires Ordinary(d) && Applied(d, item).Some?
    ensures Evaluate(Compile(d), item) == Applied(d, item)
            <==> WellFormed(d) && AppendsAgree(Sets(d)) && StartsFound(d, item)
  {
    if WellFormed(d) {
      WellFormedIsKeptIff(d, item);
    } else {
      AcceptedIff(d);
    }
  }

  lemma WellFormedIsKeptIff(d: Description, item: Item)
    requires Ordinary(d) && WellFormed(d) && Applied(d, item).Some?
    ensures Evaluate(Compile(d), item) == Applied(d, item) <==> AppendsAgree(Sets(d)) && StartsFound(d, item)
  {
    EvaluateIsCarry(d, item);
    EvaluatedAsWrittenIff(d, item);
    AgreeingBinders(d);
    var a, b := Evals(d, item), Meanings(d, item);
    forall i | 0 <= i < |Sets(d)|
      ensures a[i] == b[i] <==> EntryKept(d, i, item)
    {
      assert b[i].Some?;
      assert WellPaired(Sets(d)[i].1);
      EntryMeansIff(d, i, item);
    }
    assert a == b <==> forall i :: 0 <= i < |Sets(d)| ==> EntryKept(d, i, item);
    KeptMeansAgreed(d, item);
  }

  predicate EntryKept(d: Description, i: nat, item: Item)
    requires i < |Sets(d)|
  {
    var e := Sets(d)[i];
    if Appends(e.1) then AppendSlot(e) in Compile(d).values && Compile(d).values[AppendSlot(e)] == Used(e.1.append.value)
    else StartFound(e, item)
  }

  lemma AgreeingBinders(d: Description)
    ensures AppendsAgree(Binders(d)) <==> AppendsAgree(Sets(d))
  {
    var b, n := Binders(d), |Sets(d)|;
    assert forall i :: 0 <= i < n ==> b[i] == Sets(d)[i];
    assert forall i :: n <= i < |b| ==> !Appends(b[i].1);
  }

  lemma KeptMeansAgreed(d: Description, item: Item)
    requires Apart(Binders(d)) && AllPaired(d)
    ensures (forall i :: 0 <= i < |Sets(d)| ==> EntryKept(d, i, item)) <==> AppendsAgree(Sets(d)) && StartsFound(d, item)
  {
    AgreeingBinders(d);
    PairedSets(d);
    if forall i :: 0 <= i < |Sets(d)| ==> EntryKept(d, i, item) {
      forall i, j | 0 <= i < j < |Sets(d)|
                    && Appends(Sets(d)[i].1) && Appends(Sets(d)[j].1) && AppendSlot(Sets(d)[i]) == AppendSlot(Sets(d)[j])
        ensures Used(Sets(d)[i].1.append.value) == Used(Sets(d)[j].1.append.value)
      {
        assert EntryKept(d, i, item) && EntryKept(d, j, item);
      }
      forall i | 0 <= i < |Sets(d)| ensures StartFound(Sets(d)[i], item) {
        assert EntryKept(d, i, item);
        assert WellPaired(Sets(d)[i].1);
      }
    }
    if AppendsAgree(Sets(d)) && StartsFound(d, item) {
      forall i | 0 <= i < |Sets(d)| ensures EntryKept(d, i, item) {
        assert StartFound(Sets(d)[i], item) && WellPaired(Sets(d)[i].1);
        if Appends(Sets(d)[i].1) {
          AppendEvaluates(d, i, item);
        }
      }
    }
  }

  // What an entry comes to when appends agree: the same as it says, or nothing when that is
  // nothing.
  lemma EntryRefused(d: Description, i: nat, item: Item)
    requires Apart(Binders(d)) && AppendsAgree(Binders(d)) && i < |Sets(d)| && WellPaired(Sets(d)[i].1)
    requires EvalAt(d, i, item).Some?
    ensures Meaning(Sets(d)[i].0, Sets(d)[i].1, item).Some?
  {
    var (key, v) := Sets(d)[i];
    if v.Modified? && v.append.Some? {
      AppendEvaluates(d, i, item);
    } else if v.Modified? {
      StartEvaluates(d, i, item);
    }
  }

  lemma {:induction false} CarryDoesNotFail(d: Description, item: Item, a: seq<Option<Attr>>, b: seq<Option<Attr>>,
                                            sets: nat, removes: nat, deletes: nat)
    requires |a| == |b| == |Sets(d)| && sets <= |Sets(d)| && removes <= |Removes(d)| && deletes <= |Deletes(d)|
    requires Carry(d, item, a, sets, removes, deletes).Some? && forall i :: 0 <= i < |b| ==> b[i].Some?
    ensures Carry(d, item, b, sets, removes, deletes).Some?
    decreases sets + removes + deletes
  {
    if deletes > 0 {
      CarryDoesNotFail(d, item, a, b, sets, removes, deletes - 1);
    } else if removes > 0 {
      CarryDoesNotFail(d, item, a, b, sets, removes - 1, 0);
    } else if sets > 0 {
      CarryDoesNotFail(d, item, a, b, sets - 1, 0, 0);
    }
  }

  // On every item, when entries that append to one list agree: a description that is not well
  // formed is refused; one that is has its meaning kept, the refusal of what cannot be carried
  // out included, if and only if it cannot be carried out or its falsy starts find their
  // attributes.
  lemma CompileExactly(d: Description, item: Item)
    requires Ordinary(d) && AppendsAgree(Sets(d))
    ensures !WellFormed(d) ==> Evaluate(Compile(d), item) == None
    ensures WellFormed(d) ==>
              (Evaluate(Compile(d), item) == Applied(d, item) <==> Applied(d, item).None? || StartsFound(d, item))
  {
    AcceptedIff(d);
    if WellFormed(d) {
      EvaluateIsCarry(d, item);
      AgreeingBinders(d);
      if Applied(d, item).Some? {
        MeaningIsKeptIff(d, item);
      } else if Evaluate(Compile(d), item).Some? {
        forall i | 0 <= i < |Sets(d)| ensures Meanings(d, item)[i].Some? {
          CarryKeeps(d, item, Evals(d, item), |Sets(d)|, |Removes(d)|, |Deletes(d)|, i);
          assert WellPaired(Sets(d)[i].1);
          EntryRefused(d, i, item);
        }
        CarryDoesNotFail(d, item, Evals(d, item), Meanings(d, item), |Sets(d)|, |Removes(d)|, |Deletes(d)|);
      }
    }
  }

  // Without falsy starts the meaning is kept on every item.
  lemma CompilePreservesMeaning(d: Description, item: Item)
    requires Ordinary(d) && WellFormed(d) && AppendsAgree(Sets(d))
    requires forall i :: 0 <= i < |Sets(d)| && Sets(d)[i].1.Modified? && Sets(d)[i].1.init.Some? ==>
               !HasFalsyValue(Sets(d)[i].1.init.value)
    ensures Evaluate(Compile(d), item) == Applied(d, item)
  {
    CompileExactly(d, item);
  }

  // ---------------------------------------------------------------- one key

  // A description that sets one key.
  function SetOne(key: string, a: Attr): Description {
    Description(Some([(key, Some(a))]), None, None)
  }

  lemma SetOneSets(key: string, a: Attr)
    ensures Sets(SetOne(key, a)) == [(key, Classify(a))] && Binders(SetOne(key, a)) == [(key, Classify(a))]
  {
    var inputs := [(key, Some(a))];
    PresentUpTo(inputs, 0);
    assert inputs[..0] == [] && inputs[..1] == inputs;
    assert Present(inputs) == [(key, a)];
  }

  lemma SetOneMeaning(key: string, a: Attr, item: Item)
    ensures var m := Meaning(key, Classify(a), item);
            Applied(SetOne(key, a), item) == if m.None? then None else Some(item[key := m.value])
  {
    SetOneSets(key, a);
    var d := SetOne(key, a);
    assert Meanings(d, item)[0] == Meaning(key, Classify(a), item);
    assert Carry(d, item, Meanings(d, item), 0, 0, 0) == Some(item);
  }

  lemma SetOneOrdinary(key: string, a: Attr)
    requires SelfApart((key, Classify(a)))
    ensures Ordinary(SetOne(key, a)) && AppendsAgree(Sets(SetOne(key, a)))
    ensures WellFormed(SetOne(key, a)) <==> WellPaired(Classify(a)) && OneStep(Classify(a))
  {
    SetOneSets(key, a);
    assert Sets(SetOne(key, a))[0] == (key, Classify(a));
  }

  // A start whose falsy value would have been of use: nothing is added to it, or it is zero and
  // numbers are.
  predicate LosesStart(v: SetInput) {
    && v.Modified? && v.append.None? && v.init.Some? && HasFalsyValue(v.init.value)
    && ((v.inc.None? && v.dec.None?)
        || (Written(v.init.value) == Num(0) && (v.inc.Some? ==> v.inc.value.Num?) && (v.dec.Some? ==> v.dec.value.Num?)))
  }

  lemma LosesStartMeaning(key: string, v: SetInput, item: Item)
    requires v.Modified? && v.append.None? && v.init.Some? && HasFalsyValue(v.init.value)
    requires PathOf(v.init.value, key) !in item
    ensures Meaning(key, v, item).Some? <==> LosesStart(v)
  {
  }

  // What one entry says can be carried out on some item, but is refused on all: an append comes
  // with other modifiers, a step without a start, or two steps.
  predicate RefusedOutright(v: SetInput) {
    && v.Modified?
    && (if v.append.Some? then (v.init.Some? || v.inc.Some? || v.dec.Some?) && Written(v.append.value).List?
        else (v.init.None? || (v.inc.Some? && v.dec.Some?))
             && (v.inc.Some? ==> v.inc.value.Num?) && (v.dec.Some? ==> v.dec.value.Num?))
  }

  // An item on which it can be carried out.
  function Carrier(key: string, v: SetInput): Item
    requires v.Modified?
  {
    if v.append.Some? then map[PathOf(v.append.value, key) := List([])]
    else if v.init.Some? then map[PathOf(v.init.value, key) := Num(0)]
    else map[key := Num(0)]
  }

  lemma RefusedOutrightMeaning(key: string, v: SetInput)
    requires !WellPaired(v) || !OneStep(v)
    requires v.Modified? ==> v.init.Some? || v.inc.Some? || v.dec.Some? || v.append.Some?
    ensures RefusedOutright(v) ==> Meaning(key, v, Carrier(key, v)).Some?
    ensures !RefusedOutright(v) ==> forall item :: Meaning(key, v, item).None?
  {
  }

  // Setting one key keeps its meaning on every item if and only if it is not refused outright
  // and does not lose a falsy start: a counter that should start at zero through an operand
  // cannot be incremented.
  lemma SetOneKeepsMeaningIff(key: string, a: Attr)
    requires SelfApart((key, Classify(a)))
    ensures (forall item :: Evaluate(Compile(SetOne(key, a)), item) == Applied(SetOne(key, a), item))
            <==> !LosesStart(Classify(a)) && !RefusedOutright(Classify(a))
  {
    var v := Classify(a);
    SetOneOrdinary(key, a);
    if WellPaired(v) && OneStep(v) {
      PairedKeepsMeaningIff(key, a);
    } else {
      RefusedOutrightMeaning(key, v);
      forall item ensures Evaluate(Compile(SetOne(key, a)), item) == None {
        CompileExactly(SetOne(key, a), item);
      }
      forall item ensures Applied(SetOne(key, a), item).None? <==> Meaning(key, v, item).None? {
        SetOneMeaning(key, a, item);
      }
      assert LosesStart(v) ==> RefusedOutright(v);
      assert RefusedOutright(v) ==> Applied(SetOne(key, a), Carrier(key, v)).Some?;
    }
  }

  lemma PairedKeepsMeaningIff(key: string, a: Attr)
    requires SelfApart((key, Classify(a))) && WellPaired(Classify(a)) && OneStep(Classify(a))
    ensures (forall item :: Evaluate(Compile(SetOne(key, a)), item) == Applied(SetOne(key, a), item)) <==> !LosesStart(Classify(a))
    ensures !RefusedOutright(Classify(a))
  {
    var d, v := SetOne(key, a), Classify(a);
    SetOneSets(key, a);
    SetOneOrdinary(key, a);
    if LosesStart(v) {
      LosesStartMeaning(key, v, map[]);
      SetOneMeaning(key, a, map[]);
      CompileExactly(d, map[]);
      assert !StartFound(Sets(d)[0], map[]);
    } else {
      forall item ensures Evaluate(Compile(d), item) == Applied(d, item) {
        CompileExactly(d, item);
        SetOneMeaning(key, a, item);
        if !StartFound((key, v), item) {
          LosesStartMeaning(key, v, item);
        }
      }
    }
  }

  // An increment together with a decrement: two operators, which DynamoDB refuses on every item.
  lemma TwoStepsAreRefused(key: string, start: int, up: int, down: int)
    ensures var a := Map(map["ifNotExists" := Num(start), "incrementBy" := Num(up), "decrementBy" := Num(down)]);
            && (forall item :: Evaluate(Compile(SetOne(key, a)), item) == None)
            && Applied(SetOne(key, a), map[]) == Some(map[key := Num(start + up - down)])
  {
    var a := Map(map["ifNotExists" := Num(start), "incrementBy" := Num(up), "decrementBy" := Num(down)]);
    TwoStepsClassified(start, up, down);
    SetOneOrdinary(key, a);
    SetOneMeaning(key, a, map[]);
    forall item ensures Evaluate(Compile(SetOne(key, a)), item) == None {
      CompileExactly(SetOne(key, a), item);
    }
  }

  lemma TwoStepsClassified(start: int, up: int, down: int)
    ensures Classify(Map(map["ifNotExists" := Num(start), "incrementBy" := Num(up), "decrementBy" := Num(down)]))
            == Modified(Some(Num(start)), Some(Num(up)), Some(Num(down)), None)
  {
    assert "incrementBy"[0] == 'i' && "incrementBy"[1] == 'n' && "ifNotExists"[0] == 'i' && "ifNotExists"[1] == 'f';
    assert "decrementBy"[0] == 'd' && "listAppend"[0] == 'l';
  }

  // A counter that is to start at zero, given with its path: the zero is taken for the whole
  // operand, and the first increment is refused.
  lemma ZeroStartIsRefused(key: string, step: int)
    requires key != ""
    ensures var start := Map(map["path" := Str(key), "value" := Num(0)]);
            var d := SetOne(key, Map(map["ifNotExists" := start, "incrementBy" := Num(step)]));
            && WellFormed(d) && Evaluate(Compile(d), map[]) != Applied(d, map[])
            && Applied(d, map[]) == Some(map[key := Num(step)])
  {
    var start := Map(map["path" := Str(key), "value" := Num(0)]);
    var a := Map(map["ifNotExists" := start, "incrementBy" := Num(step)]);
    ZeroStartClassified(key, step);
    ZeroStartIsLost(key, a, start, step);
  }

  lemma ZeroStartIsLost(key: string, a: Attr, start: Attr, step: int)
    requires Classify(a) == Modified(Some(start), Some(Num(step)), None, None)
    requires PathOf(start, key) == key && Written(start) == Num(0) && HasFalsyValue(start)
    ensures var d := SetOne(key, a);
            && WellFormed(d) && Evaluate(Compile(d), map[]) != Applied(d, map[])
            && Applied(d, map[]) == Some(map[key := Num(step)])
  {
    SetOneOrdinary(key, a);
    SetOneMeaning(key, a, map[]);
    StartIsLost(key, a, map[]);
  }

  lemma ZeroStartClassified(key: string, step: int)
    requires key != ""
    ensures var start := Map(map["path" := Str(key), "value" := Num(0)]);
            && Classify(Map(map["ifNotExists" := start, "incrementBy" := Num(step)])) == Modified(Some(start), Some(Num(step)), None, None)
            && PathOf(start, key) == key && Written(start) == Num(0) && HasFalsyValue(start)
  {
    assert |"path"| == 4 && |"value"| == 5 && "ifNotExists"[1] == 'f' && "incrementBy"[1] == 'n';
    assert "decrementBy"[0] == 'd' && "listAppend"[0] == 'l' && "incrementBy"[0] == 'i' && "ifNotExists"[0] == 'i';
  }

  lemma StartIsLost(key: string, a: Attr, item: Item)
    requires SelfApart((key, Classify(a))) && WellPaired(Classify(a)) && OneStep(Classify(a)) && Applied(SetOne(key, a), item).Some?
    requires !StartFound((key, Classify(a)), item)
    ensures Evaluate(Compile(SetOne(key, a)), item) != Applied(SetOne(key, a), item)
  {
    SetOneSets(key, a);
    SetOneOrdinary(key, a);
    CompileExactly(SetOne(key, a), item);
    assert !StartFound(Sets(SetOne(key, a))[0], item);
  }

  // Some item on which an object with modifiers does not come to itself: the attribute it reads
  // holds something else.
  function Probe(key: string, v: SetInput): Item {
    if v.Modified? && v.append.None? && v.init.Some? then map[PathOf(v.init.value, key) := Str("")] else map[]
  }

  lemma ModifiersDoNotEvaluate(key: string, v: SetInput, c: Compiled)
    requires v.Modified? && c.values == ValuesFor(key, v) && NamesTheirKeys(c.names)
    ensures var r := Eval(RhsFor(key, v), c.names, c.values, Probe(key, v)); r.None? || r == Some(Str(""))
  {
    OneKeyApart(key);
    BoundSlots((key, v));
    if v.append.None? {
      var a := if v.inc.Some? then Plus(Stem(key, v), SlotOf(key + INC)) else Stem(key, v);
      var start := Eval(Stem(key, v), c.names, c.values, Probe(key, v));
      if v.init.None? {
        assert SlotOf(key) !in OtherSlots((key, v));
        assert start.None?;
      } else {
        var path := PathOf(v.init.value, key);
        if Name(path) in c.names {
          NameOfPath(c, path);
        }
        assert start.None? || start == Some(Str(""));
      }
      assert v.inc.Some? ==> Eval(a, c.names, c.values, Probe(key, v)).None?;
    }
  }

  // Exactly the values that are stored as they are: all but the objects that have a field with
  // the name of a modifier.
  lemma StoredAsValueIff(key: string, a: Attr)
    ensures (forall item :: Evaluate(Compile(SetOne(key, a)), item) == Some(item[key := a])) <==> !IsModifier(a)
  {
    var d, v := SetOne(key, a), Classify(a);
    ClassifyMeaning(a);
    SetOneSets(key, a);
    if v.Plain? {
      forall item ensures Evaluate(Compile(d), item) == Some(item[key := a]) {
        SetOneOrdinary(key, a);
        CompileExactly(d, item);
        SetOneMeaning(key, a, item);
        assert StartFound(Sets(d)[0], item);
      }
    } else {
      OnlySets(d);
      OneEntry((key, v));
      CompiledNamesTheirKeys(d);
      ModifiersDoNotEvaluate(key, v, Compile(d));
      var item := Probe(key, v);
      assert SetsOf(Compile(d))[0] == SetClause(Name(key), RhsFor(key, v));
      assert Executed(Compile(d), item, 0, 0, 0) == Some(item);
      NameOfOne(d, key, v);
      var r := Eval(RhsFor(key, v), Compile(d).names, Compile(d).values, item);
      assert |SetsOf(Compile(d))| == 1 && |RemovesOf(Compile(d))| == 0 && |DeletesOf(Compile(d))| == 0;
      assert Executed(Compile(d), item, 1, 0, 0) == if r.None? then None else Some(item[key := r.value]);
      assert a.Map? && item[key := Str("")][key] != item[key := a][key];
      assert Evaluate(Compile(d), item) != Some(item[key := a]);
    }
  }

  lemma NameOfOne(d: Description, key: string, v: SetInput)
    requires Sets(d) == [(key, v)]
    ensures Name(key) in Compile(d).names && Compile(d).names[Name(key)] == key
  {
    assert NamedBy((key, v), Name(key));
    assert Sets(d)[0] == (key, v) && SetNames(d, Name(key));
    CompiledNames(d, Name(key));
    CompiledNamesTheirKeys(d);
    NameOfPath(Compile(d), key);
  }

  // ---------------------------------------------------------------- two keys

  function SetTwo(k: string, a: Attr, l: string, b: Attr): Description {
    Description(Some([(k, Some(a)), (l, Some(b))]), None, None)
  }

  lemma OnlySets(d: Description)
    requires d.toSet.Some? && d.remove.None? && d.delete.None?
    ensures var c := Compile(d);
            SetsOf(c) == SetClauses(Sets(d)) && c.names == Names(Sets(d)) && c.values == Values(Sets(d))
    ensures Binders(d) == Sets(d)
  {
    assert Keys(Removes(d)) == [] && Keys(Deletes(d)) == [] && AsSet(Deletes(d)) == [];
  }

  lemma SetTwoSets(k: string, a: Attr, l: string, b: Attr)
    ensures Sets(SetTwo(k, a, l, b)) == [(k, Classify(a)), (l, Classify(b))]
  {
    var inputs := [(k, Some(a)), (l, Some(b))];
    PresentUpTo(inputs, 0);
    PresentUpTo(inputs, 1);
    assert inputs[..0] == [] && inputs[..2] == inputs;
    assert Present(inputs) == [(k, a), (l, b)];
  }

  lemma OneEntry(e: (string, SetInput))
    ensures Names([e]) == NamesFor(e.0, e.1) && Values([e]) == ValuesFor(e.0, e.1)
  {
    assert [e][..0] == [];
  }

  lemma TwoEntries(a: (string, SetInput), b: (string, SetInput))
    ensures Names([a, b]) == NamesFor(a.0, a.1) + NamesFor(b.0, b.1)
    ensures Values([a, b]) == ValuesFor(a.0, a.1) + ValuesFor(b.0, b.1)
  {
    OneEntry(a);
    assert [a, b][..1] == [a];
  }

  // An object that appends items to the list under a path.
  function AppendOf(path: string, more: seq<Attr>): Attr {
    Map(map["listAppend" := Map(map["path" := Str(path), "value" := List(more)])])
  }

  lemma AppendOfClassified(key: string, path: string, more: seq<Attr>)
    requires path != ""
    ensures var v := Classify(AppendOf(path, more));
            && v == Modified(None, None, None, Some(Map(map["path" := Str(path), "value" := List(more)])))
            && PathOf(v.append.value, key) == path && Written(v.append.value) == Used(v.append.value) == List(more)
            && WellPaired(v) && SelfApart((key, v)) && AppendSlot((key, v)) == SlotOf(APPEND + path)
            && Footprint((key, v)) == {SlotOf(APPEND + path)}
  {
    var fields := AppendOf(path, more).fields;
    assert |"listAppend"| == 10 && |"ifNotExists"| == |"incrementBy"| == |"decrementBy"| == 11;
    assert |"path"| == 4 && |"value"| == 5;
  }

  function TwoAppends(k: string, l: string, path: string, first: seq<Attr>, second: seq<Attr>): Description {
    SetTwo(k, AppendOf(path, first), l, AppendOf(path, second))
  }

  lemma TwoAppendsOrdinary(k: string, l: string, path: string, first: seq<Attr>, second: seq<Attr>)
    requires k != l && path != ""
    ensures var d := TwoAppends(k, l, path, first, second);
            && Ordinary(d) && WellFormed(d) && Sets(d) == [(k, Classify(AppendOf(path, first))), (l, Classify(AppendOf(path, second)))]
  {
    var d := TwoAppends(k, l, path, first, second);
    SetTwoSets(k, AppendOf(path, first), l, AppendOf(path, second));
    AppendOfClassified(k, path, first);
    AppendOfClassified(l, path, second);
    OnlySets(d);
    assert Keys(Removes(d)) == [] && Keys(Deletes(d)) == [];
    assert SlotsApart(Sets(d)[0], Sets(d)[1]);
  }

  lemma SecondIsBound(d: Description, path: string, second: seq<Attr>)
    requires d.toSet.Some? && d.remove.None? && d.delete.None? && |Sets(d)| == 2
    requires Appends(Sets(d)[1].1) && AppendSlot(Sets(d)[1]) == SlotOf(APPEND + path)
    requires Used(Sets(d)[1].1.append.value) == List(second)
    ensures SlotOf(APPEND + path) in Compile(d).values && Compile(d).values[SlotOf(APPEND + path)] == List(second)
  {
    var a, b := Sets(d)[0], Sets(d)[1];
    assert Sets(d) == [a, b];
    OnlySets(d);
    TwoEntries(a, b);
    BoundSlots(b);
  }

  // What the two entries come to, and what they say.
  lemma TwoAppendsEvaluate(d: Description, k: string, l: string, path: string, first: seq<Attr>, second: seq<Attr>, list: seq<Attr>)
    requires d.toSet.Some? && d.remove.None? && d.delete.None? && Apart(Binders(d)) && path != ""
    requires Sets(d) == [(k, Classify(AppendOf(path, first))), (l, Classify(AppendOf(path, second)))]
    ensures Evals(d, map[path := List(list)]) == [Some(List(list + second)), Some(List(list + second))]
    ensures Meanings(d, map[path := List(list)]) == [Some(List(list + first)), Some(List(list + second))]
  {
    var item := map[path := List(list)];
    AppendOfClassified(l, path, second);
    SecondIsBound(d, path, second);
    AppendAt(d, 0, k, path, first, item);
    AppendAt(d, 1, l, path, second, item);
    assert AppendTo(item, path, List(first)) == Some(List(list + first));
    assert AppendTo(item, path, List(second)) == Some(List(list + second));
  }

  lemma AppendAt(d: Description, i: nat, key: string, path: string, more: seq<Attr>, item: Item)
    requires Apart(Binders(d)) && i < |Sets(d)| && path != "" && Sets(d)[i] == (key, Classify(AppendOf(path, more)))
    ensures SlotOf(APPEND + path) in Compile(d).values
    ensures Evals(d, item)[i] == AppendTo(item, path, Compile(d).values[SlotOf(APPEND + path)])
    ensures Meanings(d, item)[i] == AppendTo(item, path, List(more))
  {
    AppendOfClassified(key, path, more);
    AppendEvaluates(d, i, item);
  }

  // Two keys that append to one list share a placeholder: both get the items of the second.
  lemma SecondAppendWins(k: string, l: string, path: string, first: seq<Attr>, second: seq<Attr>, list: seq<Attr>)
    requires k != l && path != "" && first != second
    ensures var d, item := TwoAppends(k, l, path, first, second), map[path := List(list)];
            && Ordinary(d) && WellFormed(d)
            && Applied(d, item) == Some(item[k := List(list + first)][l := List(list + second)])
            && Evaluate(Compile(d), item) == Some(item[k := List(list + second)][l := List(list + second)])
            && Evaluate(Compile(d), item) != Applied(d, item)
  {
    var d, item := TwoAppends(k, l, path, first, second), map[path := List(list)];
    TwoAppendsOrdinary(k, l, path, first, second);
    EvaluateIsCarry(d, item);
    TwoAppendsEvaluate(d, k, l, path, first, second, list);
    CarryTwo(d, item, Evals(d, item), Some(List(list + second)), Some(List(list + second)));
    CarryTwo(d, item, Meanings(d, item), Some(List(list + first)), Some(List(list + second)));
    ItemsDiffer(item, k, l, list, first, second);
  }

  lemma ItemsDiffer(item: Item, k: string, l: string, list: seq<Attr>, first: seq<Attr>, second: seq<Attr>)
    requires k != l && first != second
    ensures item[k := List(list + first)][l := List(list + second)] != item[k := List(list + second)][l := List(list + second)]
  {
    assert (list + first)[|list|..] == first && (list + second)[|list|..] == second;
    assert item[k := List(list + first)][l := List(list + second)][k] == List(list + first);
  }

  lemma CarryTwo(d: Description, item: Item, results: seq<Option<Attr>>, a: Option<Attr>, b: Option<Attr>)
    requires |Sets(d)| == 2 && results == [a, b] && Removes(d) == [] && Deletes(d) == [] && a.Some? && b.Some?
    ensures Carry(d, item, results, 2, 0, 0) == Some(item[Sets(d)[0].0 := a.value][Sets(d)[1].0 := b.value])
  {
    assert Carry(d, item, results, 0, 0, 0) == Some(item);
    assert Carry(d, item, results, 1, 0, 0) == Some(item[Sets(d)[0].0 := a.value]);
  }

  // A key that ends like a generated placeholder takes the place of another key's value.
  lemma CollidingKeyTakesOver(key: string, first: Attr, second: Attr)
    requires !IsModifier(second)
    ensures var v := Map(map["ifNotExists" := first]);
            var c := Compile(SetTwo(key, v, key + INIT, second));
            && |SetsOf(c)| == 2 && SetsOf(c)[0].target == Name(key)
            && Eval(SetsOf(c)[0].rhs, c.names, c.values, map[]) == Some(second)
            && Meaning(key, Classify(v), map[]) == Some(Written(first))
  {
    var a := Map(map["ifNotExists" := first]);
    var v := Modified(Some(first), None, None, None);
    assert "incrementBy"[0] == 'i' && "incrementBy"[1] == 'n' && "ifNotExists"[1] == 'f';
    assert "decrementBy"[0] == 'd' && "listAppend"[0] == 'l';
    assert Classify(a) == v;
    ClassifyMeaning(second);
    var d := SetTwo(key, a, key + INIT, second);
    SetTwoSets(key, a, key + INIT, second);
    TwoEntries((key, v), (key + INIT, Plain(second)));
    OnlySets(d);
    assert RhsFor(key, v) == IfNotExists(Name(PathOf(first, key)), SlotOf(key + INIT));
    assert Name(PathOf(first, key)) in NamesFor(key, v);
  }
}
