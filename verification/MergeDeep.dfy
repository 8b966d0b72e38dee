/**
 The recursive merge behind every partial update: on value trees, and on objects in the heap
 that the merge updates in place.

 `target[key]` also finds what an object inherits. `names` are the names of the functions that
 all objects inherit from Object.prototype; `__proto__` is an accessor for the prototype itself.
 */
module MergeDeep {
  import opened Values

  const PROTO := "__proto__"

  // The functions of Object.prototype.
  const OBJECT_PROTOTYPE := {"constructor", "hasOwnProperty", "isPrototypeOf", "propertyIsEnumerable", "toLocaleString",
                             "toString", "valueOf", "__defineGetter__", "__defineSetter__", "__lookupGetter__", "__lookupSetter__"}

  // ---------------------------------------------------------------- on values

  // `target[key]`, for keys other than an inherited `__proto__`.
  function Read(names: set<string>, target: Value, key: string): Value {
    if target.Obj? && key in target.fields then target.fields[key]
    else if target.Obj? && key in names then Function
    else Undefined
  }

  // What is merged into: a falsy value gives way to an empty object.
  function Next(v: Value): Value {
    if Truthy(v) then v else Obj(map[])
  }

  // Whether the target has a field of its own under the key afterwards.
  predicate Stored(names: set<string>, target: Value, source: Value, key: string)
    requires target.Obj? && source.Obj?
  {
    key in target.fields || (key in source.fields && key != PROTO && !(source.fields[key].Obj? && key in names))
  }

  // What becomes of a field.
  function MergeField(names: set<string>, target: Value, source: Value): Value
    decreases source, 1
  {
    if source.Obj? then Merge(names, Next(target), source) else source
  }

  // mergeDeep with one source.
  function Merge(names: set<string>, target: Value, source: Value): Value
    decreases source, 0
  {
    if target.Obj? && source.Obj? then
      Obj(map key | key in target.fields.Keys + source.fields.Keys && Stored(names, target, source, key) ::
            if key in source.fields then MergeField(names, Read(names, target, key), source.fields[key]) else target.fields[key])
    else
      target
  }

  // Merging an object into Object.prototype does something to it, or throws, since the
  // prototype of Object.prototype cannot be set.
  predicate Alters(names: set<string>, x: Value)
    requires x.Obj?
  {
    exists key :: key in x.fields && AltersAt(names, x.fields[key], key)
  }

  predicate AltersAt(names: set<string>, v: Value, key: string) {
    if key == PROTO then v.Obj? || v.Arr? else !(v.Obj? && key in names)
  }

  // A field named `__proto__` reaches beyond the target: an object is merged into
  // Object.prototype, an array or null takes its place; other values are ignored.
  predicate Reaches(names: set<string>, v: Value) {
    v.Arr? || v == Null || (v.Obj? && Alters(names, v))
  }

  // Somewhere in the merge such a field meets a target that has none of its own.
  predicate Escapes(names: set<string>, target: Value, source: Value)
    decreases source, 0
  {
    target.Obj? && source.Obj? && exists key :: key in source.fields && EscapesAt(names, target, key, source.fields[key])
  }

  predicate EscapesAt(names: set<string>, target: Value, key: string, v: Value)
    requires target.Obj?
    decreases v, 1
  {
    if key == PROTO && key !in target.fields then Reaches(names, v)
    else v.Obj? && Escapes(names, Next(Read(names, target, key)), v)
  }

  // The own fields of a merge.
  lemma FieldOfMerge(names: set<string>, target: Value, source: Value, key: string)
    requires target.Obj? && source.Obj? && key in source.fields
    ensures var merged, t, s := Merge(names, target, source), Read(names, target, key), source.fields[key];
            && (key in merged.fields <==> Stored(names, target, source, key))
            && (key in merged.fields ==> merged.fields[key] == if s.Obj? then Merge(names, Next(t), s) else s)
  {
    var s, t := source.fields[key], Read(names, target, key);
    assert MergeField(names, t, s) == if s.Obj? then Merge(names, Next(t), s) else s;
  }

  // ---------------------------------------------------------------- copies

  // No field named `__proto__`, and no object under an inherited name.
  predicate Clean(names: set<string>, x: Value)
    decreases x
  {
    x.Obj? ==> forall key :: key in x.fields ==>
      key != PROTO && (x.fields[key].Obj? ==> key !in names && Clean(names, x.fields[key]))
  }

  // Merging into an empty object copies an object exactly when it is clean; other objects lose
  // fields.
  lemma {:induction false} MergeIntoEmptyIff(names: set<string>, x: Value)
    ensures Merge(names, Obj(map[]), x) == x <==> x.Obj? && Clean(names, x)
    decreases x
  {
    if x.Obj? {
      var copy := Merge(names, Obj(map[]), x);
      forall key | key in x.fields && x.fields[key].Obj?
        ensures Merge(names, Obj(map[]), x.fields[key]) == x.fields[key] <==> Clean(names, x.fields[key])
      {
        MergeIntoEmptyIff(names, x.fields[key]);
      }
      forall key | key in x.fields && key in copy.fields
        ensures copy.fields[key] == if x.fields[key].Obj? then Merge(names, Obj(map[]), x.fields[key]) else x.fields[key]
      {
        FieldOfMerge(names, Obj(map[]), x, key);
      }
      if Clean(names, x) {
        assert copy.fields == x.fields;
      }
      if copy == x {
        forall key | key in x.fields ensures key != PROTO && (x.fields[key].Obj? ==> key !in names && Clean(names, x.fields[key])) {
          assert key in copy.fields;
        }
      }
    }
  }

  // An object under an inherited name is dropped: `{constructor: {a: 1}}` merges into nothing.
  lemma InheritedNameDropsObject(names: set<string>, key: string, x: Value)
    requires x.Obj? && key in names
    ensures Merge(names, Obj(map[]), Obj(map[key := x])) == Obj(map[])
  {
    assert Merge(names, Obj(map[]), Obj(map[key := x])).fields == map[];
  }

  lemma ConstructorIsDropped(x: Value)
    requires x.Obj?
    ensures Merge(OBJECT_PROTOTYPE, Obj(map[]), Obj(map["constructor" := x])) == Obj(map[])
  {
    InheritedNameDropsObject(OBJECT_PROTOTYPE, "constructor", x);
  }

  // mergeDeep({}, item, input), as the partial updates call it, is one merge into the item if
  // and only if the item is clean.
  lemma PartialUpdateIsMergeIff(names: set<string>, item: Value)
    requires item.Obj?
    ensures (forall input :: Merge(names, Merge(names, Obj(map[]), item), input) == Merge(names, item, input))
            <==> Clean(names, item)
  {
    MergeIntoEmptyIff(names, item);
    var nothing := Obj(map[]);
    var copy := Merge(names, nothing, item);
    assert Merge(names, copy, nothing).fields == copy.fields && Merge(names, item, nothing).fields == item.fields;
  }

  lemma {:induction false} FieldMergeIsIdempotent(names: set<string>, target: Value, source: Value)
    ensures MergeField(names, MergeField(names, target, source), source) == MergeField(names, target, source)
    decreases source, 1
  {
    if source.Obj? {
      MergeIsIdempotent(names, Next(target), source);
    }
  }

  // Merging a source a second time changes nothing.
  lemma {:induction false} MergeIsIdempotent(names: set<string>, target: Value, source: Value)
    ensures Merge(names, Merge(names, target, source), source) == Merge(names, target, source)
    ensures target.Obj? <==> Merge(names, target, source).Obj?
    ensures Truthy(target) ==> Truthy(Merge(names, target, source))
    decreases source, 0
  {
    if target.Obj? && source.Obj? {
      var once := Merge(names, target, source);
      forall key | key in source.fields && key in once.fields
        ensures MergeField(names, once.fields[key], source.fields[key]) == once.fields[key]
      {
        FieldMergeIsIdempotent(names, Read(names, target, key), source.fields[key]);
      }
      assert Merge(names, once, source).fields == once.fields;
    }
  }

  // ---------------------------------------------------------------- paths

  type Path = seq<string>

  // The value at a path of own fields.
  function Lookup(v: Value, path: Path): Value
    decreases |path|
  {
    if path == [] then v else Lookup(Get(v, path[0]), path[1..])
  }

  // The source says nothing about a path.
  predicate LeavesAlone(source: Value, path: Path)
    decreases |path|
  {
    source.Obj? && path != [] && (path[0] in source.fields ==> LeavesAlone(source.fields[path[0]], path[1..]))
  }

  lemma {:induction false} LookupInNothing(v: Value, path: Path)
    requires path != [] && (!v.Obj? || v.fields == map[])
    ensures Lookup(v, path) == Undefined
    decreases |path|
  {
    if |path| > 1 {
      LookupInNothing(Undefined, path[1..]);
    }
  }

  // Every path that the source does not mention keeps its value.
  lemma {:induction false} UnmentionedPathsStay(names: set<string>, target: Value, source: Value, path: Path)
    requires LeavesAlone(source, path)
    ensures Lookup(Merge(names, target, source), path) == Lookup(target, path)
    decreases |path|
  {
    if target.Obj? {
      var key, rest := path[0], path[1..];
      if key in source.fields {
        var t := Read(names, target, key);
        UnmentionedPathsStay(names, Next(t), source.fields[key], rest);
        if key !in target.fields || !Truthy(t) {
          LookupInNothing(Get(target, key), rest);
          LookupInNothing(Next(t), rest);
        }
      }
    }
  }

  // The source holds a value other than an object at the end of a path.
  predicate Holds(source: Value, path: Path)
    decreases |path|
  {
    if path == [] then !source.Obj? && source != Undefined
    else source.Obj? && path[0] in source.fields && Holds(source.fields[path[0]], path[1..])
  }

  // What keeps a value from arriving: on the way down the path the target holds or inherits
  // something that is neither an object nor falsy (an array, a non-empty string, a function);
  // or the path goes through an inherited `__proto__`.
  predicate Blocked(names: set<string>, target: Value, path: Path)
    requires path != []
    decreases |path|
  {
    var key, rest := path[0], path[1..];
    || (key == PROTO && !(target.Obj? && key in target.fields))
    || (rest != [] &&
        var next := Next(Read(names, target, key));
        !next.Obj? || Blocked(names, next, rest))
  }

  // A value of the source arrives exactly when nothing blocks its path; otherwise it is dropped
  // without notice.
  lemma {:induction false} ValueArrivesIff(names: set<string>, target: Value, source: Value, path: Path)
    requires target.Obj? && path != [] && Holds(source, path)
    ensures Lookup(Merge(names, target, source), path) == Lookup(source, path) <==> !Blocked(names, target, path)
    ensures Lookup(source, path) != Undefined
    decreases |path|
  {
    var key, rest := path[0], path[1..];
    var t, s, merged := Read(names, target, key), source.fields[key], Merge(names, target, source);
    HoldsSomething(s, rest);
    if key == PROTO && key !in target.fields {
      if rest == [] {
        assert Get(merged, key) == Undefined;
      } else {
        LookupInNothing(Get(merged, key), rest);
      }
    } else if rest == [] {
      assert Lookup(source, path) == s;
    } else if Next(t).Obj? {
      FieldOfMerge(names, target, source, key);
      ValueArrivesIff(names, Next(t), s, rest);
      assert Get(merged, key) == Merge(names, Next(t), s);
    } else {
      assert s.Obj? && MergeField(names, t, s) == t;
      assert key in target.fields ==> Get(merged, key) == t;
      assert key !in target.fields ==> Get(merged, key) == Undefined;
      LookupInNothing(Get(merged, key), rest);
    }
  }

  lemma {:induction false} HoldsSomething(source: Value, path: Path)
    requires Holds(source, path)
    ensures Lookup(source, path) != Undefined
    decreases |path|
  {
    if path != [] {
      HoldsSomething(source.fields[path[0]], path[1..]);
    }
  }

  // ---------------------------------------------------------------- on the heap

  // A field holds an object by reference, or any other value; the merge never looks into an
  // array.
  datatype Field = Leaf(value: Value) | Ref(node: JsObject)

  // `standard` says that the object has the prototype it was made with.
  class JsObject {
    var fields: map<string, Field>
    var standard: bool
    ghost var Repr: set<JsObject>

    constructor ()
      ensures Tree() && fresh(Repr) && Repr == {this} && fields == map[]
    {
      fields := map[];
      standard := true;
      Repr := {this};
    }

    // The objects below this one form no cycle. Several fields may share one.
    ghost predicate Acyclic()
      reads this, Repr
      decreases Repr
    {
      && this in Repr
      && forall key :: key in fields ==>
           match fields[key]
           case Leaf(v) => !v.Obj? && !v.Function?
           case Ref(o) => o in Repr && o.Repr < Repr && this !in o.Repr && o.Acyclic()
    }

    // And no two fields share anything, and all objects have their prototype.
    ghost predicate Tree()
      reads this, Repr
      decreases Repr
    {
      && Acyclic() && standard
      && (forall key :: key in fields && fields[key].Ref? ==> fields[key].node.Tree())
      && (forall a, b :: a in fields && b in fields && a != b && fields[a].Ref? && fields[b].Ref? ==>
            fields[a].node.Repr !! fields[b].node.Repr)
    }

    ghost function Contents(): Value
      requires Acyclic()
      reads this, Repr
      decreases Repr, 1
    {
      Obj(map key | key in fields :: At(key))
    }

    ghost function At(key: string): Value
      requires Acyclic() && key in fields
      reads this, Repr
      decreases Repr, 0
    {
      match fields[key]
      case Leaf(v) => v
      case Ref(o) => o.Contents()
    }
  }

  // Object.prototype, as long as nobody has written to it.
  ghost predicate Pristine(proto: JsObject)
    reads proto
  {
    PROTO !in proto.fields && forall key :: key in proto.fields ==> proto.fields[key] == Leaf(Function)
  }

  // The source is as it was, and shares nothing with the target.
  twostate predicate Kept(source: JsObject, target: JsObject)
    requires old(source.Acyclic())
    reads source, source.Repr, target
  {
    && source.Acyclic() && source.Repr == old(source.Repr) && source.fields == old(source.fields)
    && source.Contents() == old(source.Contents()) && target.Repr !! source.Repr
  }

  // One key of the source is merged, and nothing else changed.
  ghost predicate KeyMerged(names: set<string>, was: Value, source: Value, key: string, now: Value)
    requires was.Obj? && source.Obj? && key in source.fields && now.Obj?
  {
    Treated(names, was, source, key, now) && forall k :: k != key ==> SameAt(was, now, k)
  }

  predicate SameAt(was: Value, now: Value, key: string)
    requires was.Obj? && now.Obj?
  {
    (key in now.fields <==> key in was.fields) && (key in now.fields ==> now.fields[key] == was.fields[key])
  }

  // How far the loop over the keys of the source has come.
  ghost predicate Progress(names: set<string>, before: Value, source: Value, todo: set<string>, now: Value)
    requires before.Obj? && source.Obj? && now.Obj?
  {
    && (forall key :: key in source.fields && key !in todo ==>
          Treated(names, before, source, key, now) && !EscapesAt(names, before, key, source.fields[key]))
    && (forall key :: key in todo || key !in source.fields ==> SameAt(before, now, key))
  }

  predicate Treated(names: set<string>, before: Value, source: Value, key: string, now: Value)
    requires before.Obj? && source.Obj? && key in source.fields && now.Obj?
  {
    && (key in now.fields <==> Stored(names, before, source, key))
    && (key in now.fields ==> now.fields[key] == MergeField(names, Read(names, before, key), source.fields[key]))
  }

  lemma OneKeyOn(names: set<string>, before: Value, source: Value, todo: set<string>, key: string, was: Value, now: Value)
    requires before.Obj? && source.Obj? && was.Obj? && now.Obj? && key in todo && key in source.fields
    requires Progress(names, before, source, todo, was) && KeyMerged(names, was, source, key, now)
    requires !EscapesAt(names, was, key, source.fields[key])
    ensures Progress(names, before, source, todo - {key}, now)
  {
    assert SameAt(before, was, key);
    forall k | k in source.fields && k !in todo
      ensures Treated(names, before, source, k, now) && !EscapesAt(names, before, k, source.fields[k])
    {
      assert Treated(names, before, source, k, was) && SameAt(was, now, k);
    }
    forall k | k != key && (k in todo || k !in source.fields) ensures SameAt(before, now, k) {
      assert SameAt(before, was, k) && SameAt(was, now, k);
    }
  }

  lemma ProgressIsMerge(names: set<string>, before: Value, source: Value, now: Value)
    requires before.Obj? && source.Obj? && now.Obj? && Progress(names, before, source, {}, now)
    ensures now == Merge(names, before, source) && !Escapes(names, before, source)
  {
    var merged := Merge(names, before, source);
    forall key ensures SameAt(merged, now, key) {
      assert if key in source.fields then Treated(names, before, source, key, now) else SameAt(before, now, key);
    }
    assert now.fields.Keys == merged.fields.Keys;
    assert now.fields == merged.fields;
  }

  // Object.assign(target, { [key]: value }) for a value that is not an object.
  method AssignLeaf(target: JsObject, key: string, value: Value)
    requires target.Tree() && !value.Obj? && !value.Function?
    modifies target
    ensures target.Tree() && target.Repr == old(target.Repr)
    ensures target.fields == old(target.fields)[key := Leaf(value)] && target.At(key) == value
    ensures forall k :: k in old(target.fields) && k != key ==> target.At(k) == old(target.At(k))
  {
    target.fields := target.fields[key := Leaf(value)];
  }

  // Object.assign(target, { [key]: {} })
  method AssignEmpty(target: JsObject, key: string)
    requires target.Tree()
    modifies target
    ensures target.Tree() && fresh(target.Repr - old(target.Repr)) && old(target.Repr) <= target.Repr
    ensures key in target.fields && target.fields[key].Ref? && target.fields.Keys == old(target.fields).Keys + {key}
    ensures target.At(key) == Obj(map[])
    ensures forall k :: k in old(target.fields) && k != key ==>
              target.fields[k] == old(target.fields)[k] && target.At(k) == old(target.At(k))
  {
    var empty := new JsObject();
    target.fields := target.fields[key := Ref(empty)];
    target.Repr := target.Repr + {empty};
  }

  // An object whose footprint was not touched is as it was.
  twostate lemma Untouched(o: JsObject)
    requires old(o.Tree()) && unchanged(o) && unchanged(old(o.Repr))
    ensures o.Tree() && o.Repr == old(o.Repr) && o.Contents() == old(o.Contents())
  {
  }

  // The body of the loop of mergeDeep(Object.prototype, x). What is merged below a new object is
  // not followed.
  method MergeKeyIntoPrototype(proto: JsObject, x: JsObject, key: string) returns (altered: bool)
    requires x.Acyclic() && proto !in x.Repr && key in x.fields
    requires key in proto.fields ==> key != PROTO && proto.fields[key] == Leaf(Function)
    modifies proto
    ensures x.Acyclic() && x.fields == old(x.fields) && x.Repr == old(x.Repr) && x.Contents() == old(x.Contents())
    ensures altered <==> AltersAt(old(proto.fields.Keys), old(x.At(key)), key)
    ensures !altered ==> unchanged(proto)
    ensures forall k :: k != key ==>
              (k in proto.fields <==> k in old(proto.fields)) && (k in proto.fields ==> proto.fields[k] == old(proto.fields)[k])
    ensures altered && key != PROTO ==> key in proto.fields && proto.fields[key] != Leaf(Function)
    ensures key != PROTO && x.fields[key].Leaf? ==> altered && proto.fields[key] == x.fields[key]
  {
    if key == PROTO {
      // the prototype of Object.prototype cannot be set: TypeError
      altered := x.fields[key].Ref? || x.fields[key].value.Arr?;
    } else if x.fields[key].Leaf? {
      proto.fields := proto.fields[key := x.fields[key]];
      altered := true;
    } else if key !in proto.fields {
      var empty := new JsObject();
      proto.fields := proto.fields[key := Ref(empty)];
      altered := true;
    } else {
      altered := false;
    }
  }

  // The fields of x have become fields of every object.
  predicate Polluted(proto: JsObject, x: JsObject)
    reads proto, x
  {
    forall key :: key in x.fields && key != PROTO && x.fields[key].Leaf? ==> key in proto.fields && proto.fields[key] == x.fields[key]
  }

  // mergeDeep(Object.prototype, x). When x has a `__proto__` of its own it may throw, and the
  // order of the keys decides what is written before.
  method MergeIntoPrototype(proto: JsObject, x: JsObject) returns (altered: bool)
    requires Pristine(proto) && x.Acyclic() && proto !in x.Repr
    modifies proto
    ensures x.Acyclic() && x.fields == old(x.fields)
    ensures altered <==> Alters(old(proto.fields.Keys), old(x.Contents()))
    ensures !altered ==> unchanged(proto)
    ensures PROTO !in x.fields ==> Polluted(proto, x) && (altered ==> proto.fields != old(proto.fields))
  {
    ghost var names, content := proto.fields.Keys, x.Contents();
    ghost var was := proto.fields;
    altered := false;
    var todo := x.fields.Keys;
    while todo != {}
      invariant todo <= x.fields.Keys && proto !in x.Repr
      invariant x.Acyclic() && x.fields == old(x.fields) && x.Contents() == content
      invariant forall key :: key in todo ==> (key in proto.fields <==> key in names)
      invariant forall key :: key in todo && key in names ==> proto.fields[key] == Leaf(Function)
      invariant forall key :: key in x.fields && key !in todo && key != PROTO && x.fields[key].Leaf? ==>
                  key in proto.fields && proto.fields[key] == x.fields[key]
      invariant !altered ==> unchanged(proto)
      invariant altered <==> exists key :: key in content.fields && key !in todo && AltersAt(names, content.fields[key], key)
      invariant altered && PROTO !in x.fields ==> exists key :: key in proto.fields && proto.fields[key] != Leaf(Function)
    {
      var key :| key in todo;
      assert content.fields[key] == x.At(key);
      ghost var earlier := altered;
      ghost var now := proto.fields.Keys;
      var more := MergeKeyIntoPrototype(proto, x, key);
      assert AltersAt(now, content.fields[key], key) <==> AltersAt(names, content.fields[key], key);
      altered := altered || more;
      todo := todo - {key};
      assert more ==> key in content.fields && key !in todo && AltersAt(names, content.fields[key], key);
    }
  }

  // ---------------------------------------------------------------- the merge in place

  // mergeDeep(target, source), with the Object.prototype that all objects inherit from. The
  // merge keeps to the objects of the target and new ones, unless it reaches a `__proto__`; it
  // is followed to the first such place.
  method MergeInto(proto: JsObject, target: JsObject, source: JsObject) returns (left: bool)
    requires Pristine(proto) && target.Tree() && source.Acyclic() && target.Repr !! source.Repr
    requires proto !in target.Repr && proto !in source.Repr
    modifies target.Repr, proto
    ensures left <==> Escapes(old(proto.fields.Keys), old(target.Contents()), old(source.Contents()))
    ensures !left ==> unchanged(proto) && target.Tree() && fresh(target.Repr - old(target.Repr)) && Kept(source, target)
    ensures !left ==> target.Contents() == Merge(old(proto.fields.Keys), old(target.Contents()), old(source.Contents()))
    ensures left && old(OnlyPrototype(target, source)) ==>
              Polluted(proto, old(source.fields[PROTO].node)) && proto.fields != old(proto.fields)
    decreases source.Repr, 1
  {
    ghost var names, before, wanted := proto.fields.Keys, target.Contents(), source.Contents();
    var todo := source.fields.Keys;
    while todo != {}
      invariant todo <= source.fields.Keys
      invariant unchanged(proto) && proto !in target.Repr
      invariant target.Tree() && fresh(target.Repr - old(target.Repr)) && Kept(source, target)
      invariant Progress(names, before, wanted, todo, target.Contents())
    {
      var key :| key in todo;
      ghost var was := target.Contents();
      assert SameAt(before, was, key);
      left := MergeKey(proto, target, source, key);
      if left {
        assert EscapesAt(names, was, key, wanted.fields[key]) <==> EscapesAt(names, before, key, wanted.fields[key]);
        return;
      }
      OneKeyOn(names, before, wanted, todo, key, was, target.Contents());
      todo := todo - {key};
    }
    ProgressIsMerge(names, before, wanted, target.Contents());
    left := false;
  }

  // The source has a single field, `__proto__`, with an object that has none, and the target
  // has no such field.
  predicate OnlyPrototype(target: JsObject, source: JsObject)
    reads target, source, if PROTO in source.fields && source.fields[PROTO].Ref? then {source.fields[PROTO].node} else {}
  {
    && source.fields.Keys == {PROTO} && PROTO !in target.fields
    && source.fields[PROTO].Ref? && PROTO !in source.fields[PROTO].node.fields
  }

  // The body of the loop over the keys of the source.
  method MergeKey(proto: JsObject, target: JsObject, source: JsObject, key: string) returns (left: bool)
    requires Pristine(proto) && target.Tree() && source.Acyclic() && target.Repr !! source.Repr
    requires proto !in target.Repr && proto !in source.Repr && key in source.fields
    modifies target.Repr, proto
    ensures left <==> EscapesAt(old(proto.fields.Keys), old(target.Contents()), key, old(source.At(key)))
    ensures !left ==> unchanged(proto) && target.Tree() && fresh(target.Repr - old(target.Repr)) && Kept(source, target)
    ensures !left ==> KeyMerged(old(proto.fields.Keys), old(target.Contents()), old(source.Contents()), key, target.Contents())
    ensures left && key == PROTO && old(OnlyPrototype(target, source)) ==>
              Polluted(proto, old(source.fields[PROTO].node)) && proto.fields != old(proto.fields)
    decreases source.Repr, 0
  {
    if key == PROTO && key !in target.fields {
      left := AssignPrototype(proto, target, source);
      return;
    }
    if source.fields[key].Leaf? {
      AssignLeaf(target, key, source.fields[key].value);
      return false;
    }
    left := MergeObject(proto, target, key, source.fields[key].node);
  }

  // What a field of the target is after an object was merged under its key.
  predicate ObjectMerged(names: set<string>, before: Value, key: string, source: Value, has: bool, now: Value)
    requires before.Obj? && source.Obj?
  {
    && (has <==> key in before.fields || key !in names)
    && (has ==> now == Merge(names, Next(Read(names, before, key)), source))
  }

  // The body of the loop for an object under a key other than an inherited `__proto__`.
  method MergeObject(proto: JsObject, target: JsObject, key: string, s: JsObject) returns (left: bool)
    requires Pristine(proto) && target.Tree() && s.Acyclic() && target.Repr !! s.Repr
    requires proto !in target.Repr && proto !in s.Repr && (key == PROTO ==> key in target.fields)
    modifies target.Repr, proto
    ensures left <==> Escapes(old(proto.fields.Keys), Next(Read(old(proto.fields.Keys), old(target.Contents()), key)), old(s.Contents()))
    ensures !left ==> unchanged(proto) && target.Tree() && fresh(target.Repr - old(target.Repr))
    ensures !left ==> ObjectMerged(old(proto.fields.Keys), old(target.Contents()), key, old(s.Contents()),
                                   key in target.fields, if key in target.fields then target.At(key) else Undefined)
    ensures !left ==> forall k :: k != key ==> (k in target.fields <==> k in old(target.fields))
    ensures !left ==> forall k :: k in old(target.fields) && k != key ==> target.At(k) == old(target.At(k))
    decreases s.Repr, 3
  {
    if key !in target.fields && key in proto.fields {
      // a function is found: truthy, and not an object
      return false;
    }
    if key !in target.fields || (target.fields[key].Leaf? && !Truthy(target.fields[key].value)) {
      AssignEmpty(target, key);
    }
    left := false;
    if target.fields[key].Ref? {
      left := MergeChild(proto, target, key, s);
    }
  }

  // The field `__proto__` of the source, for a target that has none.
  method AssignPrototype(proto: JsObject, target: JsObject, source: JsObject) returns (left: bool)
    requires Pristine(proto) && target.Tree() && source.Acyclic() && target.Repr !! source.Repr
    requires proto !in target.Repr && proto !in source.Repr && PROTO in source.fields && PROTO !in target.fields
    modifies target, proto
    ensures left <==> Reaches(old(proto.fields.Keys), old(source.At(PROTO)))
    ensures !left ==> unchanged(proto) && unchanged(target) && target.Tree() && Kept(source, target)
    ensures !left ==> target.Contents() == old(target.Contents())
    ensures left && source.fields[PROTO].Ref? && PROTO !in source.fields[PROTO].node.fields ==>
              Polluted(proto, source.fields[PROTO].node) && proto.fields != old(proto.fields)
    ensures source.fields == old(source.fields)
  {
    if source.fields[PROTO].Ref? {
      left := MergeIntoPrototype(proto, source.fields[PROTO].node);
    } else if source.fields[PROTO].value.Arr? || source.fields[PROTO].value == Null {
      target.standard := false;
      left := true;
    } else {
      // the setter ignores other values
      left := false;
    }
  }

  // mergeDeep(target[key], source) for a target that has an object under the key.
  method MergeChild(proto: JsObject, target: JsObject, key: string, source: JsObject) returns (left: bool)
    requires Pristine(proto) && target.Tree() && source.Acyclic() && target.Repr !! source.Repr
    requires proto !in target.Repr && proto !in source.Repr
    requires key in target.fields && target.fields[key].Ref?
    modifies target.Repr, proto
    ensures left <==> Escapes(old(proto.fields.Keys), old(target.At(key)), old(source.Contents()))
    ensures !left ==> unchanged(proto) && target.Tree() && fresh(target.Repr - old(target.Repr)) && target.fields == old(target.fields)
    ensures !left ==> target.At(key) == Merge(old(proto.fields.Keys), old(target.At(key)), old(source.Contents()))
    ensures !left ==> forall k :: k in old(target.fields) && k != key ==> target.At(k) == old(target.At(k))
    decreases source.Repr, 2
  {
    var child := target.fields[key].node;
    left := MergeInto(proto, child, source);
    if left {
      return;
    }
    target.Repr := target.Repr + child.Repr;
    forall k | k in target.fields && k != key && target.fields[k].Ref?
      ensures var o := target.fields[k].node;
              && o.Tree() && o.Repr == old(o.Repr) && o.Contents() == old(o.Contents())
              && o.Repr !! child.Repr && o.Repr < target.Repr && target !in o.Repr
    {
      Untouched(target.fields[k].node);
    }
  }

  // mergeDeep({}, item, input): a new object that shares nothing with either, unless a merge
  // leaves it; the item and the input may share objects, and stay as they were.
  method PartialUpdate(proto: JsObject, item: JsObject, input: JsObject) returns (result: JsObject, left: bool)
    requires Pristine(proto) && item.Acyclic() && input.Acyclic() && proto !in item.Repr && proto !in input.Repr
    modifies proto
    ensures var names, copy := old(proto.fields.Keys), Merge(old(proto.fields.Keys), Obj(map[]), old(item.Contents()));
            && (left <==> Escapes(names, Obj(map[]), old(item.Contents())) || Escapes(names, copy, old(input.Contents())))
            && (!left ==> result.Tree() && fresh(result.Repr) && result.Contents() == Merge(names, copy, old(input.Contents())))
    ensures !left ==> unchanged(proto) && item.Acyclic() && item.Contents() == old(item.Contents())
    ensures !left ==> input.Acyclic() && input.Contents() == old(input.Contents())
  {
    result := new JsObject();
    assert result.Contents() == Obj(map[]);
    left := MergeInto(proto, result, item);
    if !left {
      left := MergeInto(proto, result, input);
    }
  }

  // What JSON.parse makes of `{"__proto__": {name: value}}`.
  method ParsedSource(name: string, value: Value) returns (source: JsObject, x: JsObject)
    requires !value.Obj? && !value.Function? && name != PROTO
    ensures source.Acyclic() && fresh(source.Repr) && x in source.Repr
    ensures source.fields == map[PROTO := Ref(x)] && x.fields == map[name := Leaf(value)]
    ensures source.Contents() == Obj(map[PROTO := Obj(map[name := value])])
  {
    x := new JsObject();
    x.fields := map[name := Leaf(value)];
    source := new JsObject();
    source.fields := map[PROTO := Ref(x)];
    source.Repr := {source} + x.Repr;
    assert x.Contents() == Obj(map[name := value]);
    assert source.Contents() == Obj(map[PROTO := Obj(map[name := value])]);
  }

  // Merging it into any object that has no such field gives the field to every object.
  method PrototypeIsWritten(proto: JsObject, target: JsObject, name: string, value: Value)
    requires Pristine(proto) && target.Tree() && proto !in target.Repr && PROTO !in target.fields
    requires !value.Obj? && !value.Function? && name != PROTO
    modifies target.Repr, proto
    ensures name in proto.fields && proto.fields[name] == Leaf(value)
  {
    var source, x := ParsedSource(name, value);
    ghost var names, v := proto.fields.Keys, Obj(map[name := value]);
    assert AltersAt(names, v.fields[name], name);
    assert EscapesAt(names, target.Contents(), PROTO, v);
    assert source.Contents().fields[PROTO] == v;
    var left := MergeInto(proto, target, source);
    assert left;
  }
}
