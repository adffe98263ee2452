/** JSON documents as objects that are updated in place. */
module JsonObjects {
  import opened JsonValues

  datatype Value = Nothing | TextValue(s: string) | OtherValue(text: string) | Ref(o: JsonObject)

  class JsonObject {
    var keys: seq<string>
    var fields: map<string, Value>

    constructor ()
      ensures keys == [] && fields == map[]
    {
      keys, fields := [], map[];
    }

    /** A key keeps its position; a new one takes its place among the keys. */
    method Put(key: string, value: Value)
      modifies this
      ensures NodeOf(this) == Written(old(NodeOf(this)), key, value)
    {
      if key !in fields { keys := Insert(keys, key); }
      fields := fields[key := value];
    }
  }

  // ---------------------------------------------------------------- the documents that objects form

  /** What an object holds at some moment, and what all of some objects hold. */
  datatype Node = Node(keys: seq<string>, fields: map<string, Value>)
  type Store = map<JsonObject, Node>

  ghost function NodeOf(o: JsonObject): Node
    reads o
  {
    Node(o.keys, o.fields)
  }

  ghost function StoreOf(objects: set<JsonObject>): Store
    reads objects
  {
    map o | o in objects :: NodeOf(o)
  }

  function Written(n: Node, key: string, value: Value): Node {
    Node(if key in n.fields then n.keys else Insert(n.keys, key), n.fields[key := value])
  }

  /** `x` stands for the document `j`. */
  ghost predicate Denotes(store: Store, x: Value, j: Json)
    decreases j
  {
    match j
    case Undefined => x == Nothing
    case Text(s) => x == TextValue(s)
    case Other(text) => x == OtherValue(text)
    case Record(keys, fields) =>
      && x.Ref? && x.o in store && store[x.o].keys == keys && store[x.o].fields.Keys == fields.Keys
      && forall k :: k in fields ==> Denotes(store, store[x.o].fields[k], fields[k])
  }

  ghost function Objects(store: Store, x: Value, j: Json): set<JsonObject>
    requires Denotes(store, x, j)
    decreases j
  {
    if j.Record? then {x.o} + set k, o | k in j.fields && o in Objects(store, store[x.o].fields[k], j.fields[k]) :: o
      else {}
  }

  /** No object occurs twice in the document. */
  ghost predicate Apart(store: Store, x: Value, j: Json)
    requires Denotes(store, x, j)
    decreases j
  {
    j.Record? ==>
      && (forall k :: k in j.fields ==> Apart(store, store[x.o].fields[k], j.fields[k]))
      && (forall k :: k in j.fields ==> x.o !in Objects(store, store[x.o].fields[k], j.fields[k]))
      && (forall k, l :: k in j.fields && l in j.fields && k != l ==>
            Objects(store, store[x.o].fields[k], j.fields[k]) !! Objects(store, store[x.o].fields[l], j.fields[l]))
  }

  ghost predicate Tree(store: Store, x: Value, j: Json) {
    Denotes(store, x, j) && Apart(store, x, j)
  }

  /** Objects elsewhere do not matter to a document. */
  lemma {:induction false} WrittenElsewhere(store: Store, x: Value, j: Json, o: JsonObject, n: Node)
    requires Tree(store, x, j) && o !in Objects(store, x, j)
    ensures Tree(store[o := n], x, j) && Objects(store[o := n], x, j) == Objects(store, x, j)
    decreases j
  {
    if j.Record? {
      forall k | k in j.fields
        ensures Tree(store[o := n], store[x.o].fields[k], j.fields[k])
        ensures Objects(store[o := n], store[x.o].fields[k], j.fields[k])
                == Objects(store, store[x.o].fields[k], j.fields[k])
      {
        assert Objects(store, store[x.o].fields[k], j.fields[k]) <= Objects(store, x, j);
        WrittenElsewhere(store, store[x.o].fields[k], j.fields[k], o, n);
      }
    }
  }

  lemma {:induction false} ObjectsStored(store: Store, x: Value, j: Json)
    requires Denotes(store, x, j)
    ensures Objects(store, x, j) <= store.Keys
    decreases j
  {
    if j.Record? {
      forall k | k in j.fields ensures Objects(store, store[x.o].fields[k], j.fields[k]) <= store.Keys {
        ObjectsStored(store, store[x.o].fields[k], j.fields[k]);
      }
    }
  }

  /** Where `path` leads from `x`. */
  ghost function Follow(store: Store, x: Value, j: Json, path: seq<string>): (r: Value)
    requires Denotes(store, x, j) && Present(j, path)
    ensures Denotes(store, r, Get(j, path)) && Objects(store, r, Get(j, path)) <= Objects(store, x, j)
    decreases |path|
  {
    if path == [] then x
    else
      assert Objects(store, store[x.o].fields[path[0]], j.fields[path[0]]) <= Objects(store, x, j);
      Follow(store, store[x.o].fields[path[0]], j.fields[path[0]], path[1..])
  }

  /** Writing a field of a record in the document. */
  lemma WriteHere(store: Store, x: Value, j: Json, key: string, v: Value, vj: Json)
    requires Tree(store, x, j) && j.Record? && Tree(store, v, vj) && Objects(store, v, vj) !! Objects(store, x, j)
    ensures var after := store[x.o := Written(store[x.o], key, v)];
            && Tree(after, x, With(j, key, vj))
            && Objects(after, x, With(j, key, vj)) <= Objects(store, x, j) + Objects(store, v, vj)
            && Tree(after, v, vj) && Objects(after, v, vj) == Objects(store, v, vj)
  {
    var n := Written(store[x.o], key, v);
    var after := store[x.o := n];
    WrittenElsewhere(store, v, vj, x.o, n);
    forall k | k in j.fields
      ensures Tree(after, store[x.o].fields[k], j.fields[k])
      ensures Objects(after, store[x.o].fields[k], j.fields[k]) == Objects(store, store[x.o].fields[k], j.fields[k])
              <= Objects(store, x, j)
    {
      WrittenElsewhere(store, store[x.o].fields[k], j.fields[k], x.o, n);
    }
  }

  ghost predicate GrowsBy(was: set<JsonObject>, now: set<JsonObject>, extra: set<JsonObject>) {
    now <= was + extra
  }

  /** After a write inside field `k`, field `l` stands for `now`; only field `k` has other objects. */
  ghost predicate FieldAfter(store: Store, after: Store, x: Value, j: Json, k: string, l: string, now: Json,
                             extra: set<JsonObject>)
    requires Denotes(store, x, j) && j.Record? && l in j.fields
  {
    var y := store[x.o].fields[l];
    && Tree(after, y, now)
    && GrowsBy(Objects(store, y, j.fields[l]), Objects(after, y, now), if l == k then extra else {})
  }

  lemma SiblingAfter(store: Store, x: Value, j: Json, k: string, l: string, o: JsonObject, n: Node)
    requires Tree(store, x, j) && j.Record? && k in j.fields && l in j.fields && l != k
    requires o in Objects(store, store[x.o].fields[k], j.fields[k])
    ensures FieldAfter(store, store[o := n], x, j, k, l, j.fields[l], {})
  {
    WrittenElsewhere(store, store[x.o].fields[l], j.fields[l], o, n);
  }

  lemma ObjectsOfField(store: Store, x: Value, j: Json, k: string)
    requires Tree(store, x, j) && j.Record? && k in j.fields
    ensures Objects(store, store[x.o].fields[k], j.fields[k]) <= Objects(store, x, j)
    ensures x.o !in Objects(store, store[x.o].fields[k], j.fields[k])
  {
  }

  /** Writing an object in one field of the document. */
  lemma WriteInside(store: Store, x: Value, j: Json, k: string, o: JsonObject, n: Node, child: Json,
                    extra: set<JsonObject>)
    requires Tree(store, x, j) && j.Record? && k in j.fields && extra !! Objects(store, x, j)
    requires o in Objects(store, store[x.o].fields[k], j.fields[k])
    requires FieldAfter(store, store[o := n], x, j, k, k, child, extra)
    ensures var r := With(j, k, child);
            Tree(store[o := n], x, r) && GrowsBy(Objects(store, x, j), Objects(store[o := n], x, r), extra)
  {
    var after, r := store[o := n], With(j, k, child);
    forall l | l in j.fields ensures FieldAfter(store, after, x, j, k, l, r.fields[l], extra) {
      if l != k { SiblingAfter(store, x, j, k, l, o, n); }
    }
    ObjectsOfField(store, x, j, k);
    FieldsTogether(store, after, x, j, k, child, extra);
  }

  ghost predicate FieldsAfter(store: Store, after: Store, x: Value, j: Json, k: string, child: Json,
                              extra: set<JsonObject>)
  {
    && Tree(store, x, j) && j.Record? && k in j.fields && extra !! Objects(store, x, j)
    && x.o in after && after[x.o] == store[x.o]
    && forall l :: l in j.fields ==> FieldAfter(store, after, x, j, k, l, With(j, k, child).fields[l], extra)
  }

  lemma FieldsTogether(store: Store, after: Store, x: Value, j: Json, k: string, child: Json, extra: set<JsonObject>)
    requires FieldsAfter(store, after, x, j, k, child, extra)
    ensures var r := With(j, k, child);
            Tree(after, x, r) && GrowsBy(Objects(store, x, j), Objects(after, x, r), extra)
  {
    FieldsDenote(store, after, x, j, k, child, extra);
    var r := With(j, k, child);
    assert GrowsBy(Objects(store, x, j), Objects(after, x, r), extra) by {
      forall l | l in j.fields
        ensures Objects(after, after[x.o].fields[l], r.fields[l]) <= Objects(store, x, j) + extra
      {
        hide FieldAfter;
        FieldObjects(store, after, x, j, k, l, child, extra);
      }
    }
    FieldsApart(store, after, x, j, k, child, extra);
  }

  lemma FieldsDenote(store: Store, after: Store, x: Value, j: Json, k: string, child: Json, extra: set<JsonObject>)
    requires FieldsAfter(store, after, x, j, k, child, extra)
    ensures Denotes(after, x, With(j, k, child))
  {
    hide Objects, Apart;
  }

  lemma FieldObjects(store: Store, after: Store, x: Value, j: Json, k: string, l: string, child: Json,
                     extra: set<JsonObject>)
    requires FieldsAfter(store, after, x, j, k, child, extra) && l in j.fields
    ensures var y, now := store[x.o].fields[l], With(j, k, child).fields[l];
            && Tree(after, y, now) && x.o !in Objects(after, y, now)
            && GrowsBy(Objects(store, y, j.fields[l]), Objects(after, y, now), if l == k then extra else {})
            && Objects(store, y, j.fields[l]) <= Objects(store, x, j)
  {
    ObjectsOfField(store, x, j, l);
    assert FieldAfter(store, after, x, j, k, l, With(j, k, child).fields[l], extra);
    assert x.o in Objects(store, x, j);
  }

  lemma FieldsApart(store: Store, after: Store, x: Value, j: Json, k: string, child: Json, extra: set<JsonObject>)
    requires FieldsAfter(store, after, x, j, k, child, extra) && Denotes(after, x, With(j, k, child))
    ensures Apart(after, x, With(j, k, child))
  {
    var r := With(j, k, child);
    forall l | l in j.fields
      ensures Apart(after, after[x.o].fields[l], r.fields[l])
              && x.o !in Objects(after, after[x.o].fields[l], r.fields[l])
    {
      hide FieldAfter;
      FieldObjects(store, after, x, j, k, l, child, extra);
    }
    forall l, m | l in j.fields && m in j.fields && l != m
      ensures Objects(after, after[x.o].fields[l], r.fields[l]) !! Objects(after, after[x.o].fields[m], r.fields[m])
    {
      hide FieldAfter;
      FieldObjects(store, after, x, j, k, l, child, extra);
      FieldObjects(store, after, x, j, k, m, child, extra);
    }
  }

  /** Writing `key` of the record at `path` makes `x` stand for the document set there. */
  ghost predicate WroteAt(store: Store, x: Value, j: Json, path: seq<string>, key: string, v: Value, vj: Json)
    requires Denotes(store, x, j) && Present(j, path) && Get(j, path).Record? && Settable(j, path + [key])
             && Denotes(store, v, vj)
  {
    var o := Follow(store, x, j, path).o;
    var after := store[o := Written(store[o], key, v)];
    var r := Set(j, path + [key], vj);
    && Tree(after, x, r) && GrowsBy(Objects(store, x, j), Objects(after, x, r), Objects(store, v, vj))
    && Present(r, path + [key]) && Follow(after, x, r, path + [key]) == v
  }

  /** Writing at a path whose last record is `x`'s descendant `o`. */
  lemma {:induction false} WriteAt(store: Store, x: Value, j: Json, path: seq<string>, key: string, v: Value, vj: Json)
    requires Tree(store, x, j) && Present(j, path) && Get(j, path).Record?
    requires Tree(store, v, vj) && Objects(store, v, vj) !! Objects(store, x, j)
    ensures Settable(j, path + [key]) && WroteAt(store, x, j, path, key, v, vj)
    decreases |path|
  {
    if path == [] {
      WriteHere(store, x, j, key, v, vj);
      assert path + [key] == [key];
    } else {
      var y, child := store[x.o].fields[path[0]], j.fields[path[0]];
      ObjectsOfField(store, x, j, path[0]);
      WriteAt(store, y, child, path[1..], key, v, vj);
      WriteFurther(store, x, j, path, key, v, vj);
    }
  }

  lemma FirstStep(path: seq<string>, key: string)
    requires path != []
    ensures (path + [key])[0] == path[0] && (path + [key])[1..] == path[1..] + [key]
  {
  }

  lemma SetFurther(j: Json, path: seq<string>, key: string, vj: Json)
    requires Present(j, path) && path != [] && Settable(j.fields[path[0]], path[1..] + [key])
    ensures Settable(j, path + [key])
    ensures Set(j, path + [key], vj) == With(j, path[0], Set(j.fields[path[0]], path[1..] + [key], vj))
  {
    assert (path + [key])[1..] == path[1..] + [key];
  }

  /** One step of `Follow`, before any more of the path is looked at. */
  lemma FollowFurther(store: Store, x: Value, j: Json, path: seq<string>)
    requires Denotes(store, x, j) && j.Record? && path != [] && path[0] in j.fields
             && Present(j.fields[path[0]], path[1..])
    ensures Present(j, path) && Get(j, path) == Get(j.fields[path[0]], path[1..])
    ensures Follow(store, x, j, path) == Follow(store, store[x.o].fields[path[0]], j.fields[path[0]], path[1..])
  {
  }

  lemma WriteFurther(store: Store, x: Value, j: Json, path: seq<string>, key: string, v: Value, vj: Json)
    requires Tree(store, x, j) && j.Record? && path != [] && path[0] in j.fields
    requires Tree(store, v, vj) && Objects(store, v, vj) !! Objects(store, x, j)
    requires Present(j.fields[path[0]], path[1..]) && Get(j.fields[path[0]], path[1..]).Record?
             && Settable(j.fields[path[0]], path[1..] + [key])
    requires WroteAt(store, store[x.o].fields[path[0]], j.fields[path[0]], path[1..], key, v, vj)
    ensures Present(j, path) && Get(j, path).Record? && Settable(j, path + [key])
            && WroteAt(store, x, j, path, key, v, vj)
  {
    hide Get, Present, Settable, Set, Follow, Apart, Objects;
    FollowFurther(store, x, j, path);
    SetFurther(j, path, key, vj);
    WriteTogether(store, x, j, path[0], path[1..], key, v, vj);
    FirstStep(path, key);
    var o := Follow(store, x, j, path).o;
    FollowFurther(store[o := Written(store[o], key, v)], x, Set(j, path + [key], vj), path + [key]);
  }

  lemma WriteTogether(store: Store, x: Value, j: Json, k: string, rest: seq<string>, key: string, v: Value, vj: Json)
    requires Tree(store, x, j) && j.Record? && k in j.fields
    requires Tree(store, v, vj) && Objects(store, v, vj) !! Objects(store, x, j)
    requires Present(j.fields[k], rest) && Get(j.fields[k], rest).Record? && Settable(j.fields[k], rest + [key])
    requires WroteAt(store, store[x.o].fields[k], j.fields[k], rest, key, v, vj)
    ensures var o := Follow(store, store[x.o].fields[k], j.fields[k], rest).o;
            var after, r := store[o := Written(store[o], key, v)], With(j, k, Set(j.fields[k], rest + [key], vj));
            o != x.o && Tree(after, x, r) && GrowsBy(Objects(store, x, j), Objects(after, x, r), Objects(store, v, vj))
  {
    hide Get, Present, Settable, Set, Follow, Apart;
    var y, child := store[x.o].fields[k], j.fields[k];
    ObjectsOfField(store, x, j, k);
    var o := Follow(store, y, child, rest).o;
    WriteInside(store, x, j, k, o, Written(store[o], key, v), Set(child, rest + [key], vj), Objects(store, v, vj));
  }
}
