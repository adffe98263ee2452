/** Reading and writing documents in place, by path. */
module JsonPaths {
  import opened JsonValues
  import opened JsonObjects

  /** Having followed `done` from `root`, one is at `x`; `value` is no part of the document. */
  ghost predicate Walking(store: Store, root: Value, j: Json, done: seq<string>, x: Value, value: Value, vj: Json,
                          valued: set<JsonObject>)
  {
    && Tree(store, root, j) && Present(j, done) && Follow(store, root, j, done) == x
    && Tree(store, value, vj) && Objects(store, value, vj) == valued && valued !! Objects(store, root, j)
  }

  lemma {:induction false} FollowNext(store: Store, x: Value, j: Json, path: seq<string>, k: string)
    requires Denotes(store, x, j) && Present(j, path) && Get(j, path).Record? && k in Get(j, path).fields
    ensures Present(j, path + [k])
    ensures Follow(store, x, j, path + [k]) == store[Follow(store, x, j, path).o].fields[k]
    decreases |path|
  {
    if path != [] {
      FirstStep(path, k);
      FollowNext(store, store[x.o].fields[path[0]], j.fields[path[0]], path[1..], k);
    }
  }

  lemma WalkOn(store: Store, root: Value, j: Json, done: seq<string>, x: Value, value: Value, vj: Json,
               valued: set<JsonObject>, key: string)
    requires Walking(store, root, j, done, x, value, vj, valued) && x.Ref? && x.o in store && key in store[x.o].fields
    ensures Walking(store, root, j, done + [key], store[x.o].fields[key], value, vj, valued)
  {
    FollowNext(store, root, j, done, key);
  }

  /** A new object is of no concern to the walk. */
  lemma WalkGrown(store: Store, root: Value, j: Json, done: seq<string>, x: Value, value: Value, vj: Json,
                  valued: set<JsonObject>, o: JsonObject)
    requires Walking(store, root, j, done, x, value, vj, valued) && o !in store
    ensures var grown := store[o := Node([], map[])];
            && Walking(grown, root, j, done, x, value, vj, valued) && Objects(grown, root, j) == Objects(store, root, j)
            && Tree(grown, Ref(o), EMPTY) && Objects(grown, Ref(o), EMPTY) == {o} && o !in Objects(grown, root, j)
            && o !in valued
  {
    ObjectsStored(store, root, j);
    ObjectsStored(store, value, vj);
    WrittenElsewhere(store, root, j, o, Node([], map[]));
    WrittenElsewhere(store, value, vj, o, Node([], map[]));
    FollowElsewhere(store, root, j, done, o, Node([], map[]));
  }

  /** A walk goes on into a record `o` that is made on the way. */
  lemma WalkMaking(store: Store, root: Value, j: Json, done: seq<string>, x: Value, value: Value, vj: Json,
                   valued: set<JsonObject>, key: string, o: JsonObject)
    requires Walking(store, root, j, done, x, value, vj, valued) && x.Ref? && x.o in store
             && key !in store[x.o].fields && o !in store
    ensures Settable(j, done + [key]) && key !in Get(j, done).fields && Get(j, done).Record?
    ensures var after, r := store[o := Node([], map[])][x.o := Written(store[x.o], key, Ref(o))],
            Set(j, done + [key], EMPTY);
            && Walking(after, root, r, done + [key], Ref(o), value, vj, valued)
            && Tree(after, root, r) && Objects(after, root, r) <= Objects(store, root, j) + {o}
  {
    var grown := store[o := Node([], map[])];
    WalkGrown(store, root, j, done, x, value, vj, valued, o);
    hide Apart, Objects, Set;
    WriteAt(grown, root, j, done, key, Ref(o), EMPTY);
    WrittenElsewhere(grown, value, vj, x.o, Written(store[x.o], key, Ref(o)));
  }

  lemma {:induction false} FollowElsewhere(store: Store, x: Value, j: Json, path: seq<string>, o: JsonObject, n: Node)
    requires Tree(store, x, j) && Present(j, path) && o !in Objects(store, x, j)
    ensures Denotes(store[o := n], x, j) && Follow(store[o := n], x, j, path) == Follow(store, x, j, path)
    decreases |path|
  {
    WrittenElsewhere(store, x, j, o, n);
    if path != [] {
      ObjectsOfField(store, x, j, path[0]);
      FollowElsewhere(store, store[x.o].fields[path[0]], j.fields[path[0]], path[1..], o, n);
    }
  }

  /** The value that the path leads to from `root`; a path that runs into a plain value leads
      nowhere, and so does a path to a function. */
  method DeepGet(root: Value, path: seq<string>, ghost j: Json, ghost repr: set<JsonObject>) returns (x: Value)
    requires Tree(StoreOf(repr), root, j) && "__proto__" !in path
    ensures Denotes(StoreOf(repr), x, Get(j, path))
  {
    x := root;
    ghost var sub := j;
    var rest := path;
    while |rest| > 0 && x.Ref?
      invariant Denotes(StoreOf(repr), x, sub) && Get(j, path) == Get(sub, rest)
      decreases |rest|
    {
      var key := rest[0];
      rest := rest[1..];
      sub := Field(sub, key);
      x := FieldValue(x.o, key);
    }
    if |rest| != 0 { x := Nothing; }
  }

  /** What is found in a field; the functions that all objects inherit count as nothing. */
  function FieldValue(o: JsonObject, key: string): Value
    reads o
  {
    if key in o.fields then o.fields[key] else Nothing
  }

  /** `x` stands for the document `j`, which is made of some of the objects given. */
  ghost predicate Within(store: Store, x: Value, j: Json, objects: set<JsonObject>) {
    Tree(store, x, j) && Objects(store, x, j) <= objects
  }

  /** Where the loop of `DeepSet` is: at the end of `done`, with a document `cur` that is `j` plus
      records made on the way, in which the write still has the outcome it would have in `j`. */
  ghost predicate OnTheWay(store: Store, root: Value, j: Json, cur: Json, done: seq<string>, rest: seq<string>,
                           x: Value, value: Value, vj: Json, valued: set<JsonObject>)
  {
    && rest != [] && Walking(store, root, cur, done, x, value, vj, valued)
    && (Settable(j, done + rest) <==> Settable(cur, done + rest))
    && (Settable(j, done + rest) ==> Set(j, done + rest, vj) == Set(cur, done + rest, vj))
    && Leftover(j, done + rest) == Leftover(cur, done + rest)
  }

  lemma OnTheWayAt(store: Store, root: Value, j: Json, cur: Json, done: seq<string>, rest: seq<string>, x: Value,
                   value: Value, vj: Json, valued: set<JsonObject>, objects: set<JsonObject>)
    requires OnTheWay(store, root, j, cur, done, rest, x, value, vj, valued) && Within(store, root, cur, objects)
    ensures x.Ref? ==> x.o in store && x.o in objects
    ensures Walking(store, root, cur, done, x, value, vj, valued) && Present(cur, done)
  {
  }

  lemma OnTheWayOn(store: Store, root: Value, j: Json, cur: Json, done: seq<string>, rest: seq<string>, x: Value,
                   value: Value, vj: Json, valued: set<JsonObject>)
    requires OnTheWay(store, root, j, cur, done, rest, x, value, vj, valued) && |rest| > 1
    requires x.Ref? && x.o in store && rest[0] in store[x.o].fields
    ensures OnTheWay(store, root, j, cur, done + [rest[0]], rest[1..], store[x.o].fields[rest[0]], value, vj, valued)
  {
    WalkOn(store, root, cur, done, x, value, vj, valued, rest[0]);
    hide Walking, Settable, Set, Leftover;
    assert done + [rest[0]] + rest[1..] == done + rest;
  }

  lemma OnTheWayMaking(store: Store, root: Value, j: Json, cur: Json, done: seq<string>, rest: seq<string>, x: Value,
                       value: Value, vj: Json, valued: set<JsonObject>, o: JsonObject, objects: set<JsonObject>)
    requires OnTheWay(store, root, j, cur, done, rest, x, value, vj, valued) && |rest| > 1
             && Within(store, root, cur, objects)
    requires x.Ref? && x.o in store && rest[0] !in store[x.o].fields && !IsInherited(rest[0]) && o !in store
    ensures Settable(cur, done + [rest[0]])
    ensures var after, made := store[o := Node([], map[])][x.o := Written(store[x.o], rest[0], Ref(o))],
            Set(cur, done + [rest[0]], EMPTY);
            && OnTheWay(after, root, j, made, done + [rest[0]], rest[1..], Ref(o), value, vj, valued)
            && Within(after, root, made, objects + {o})
  {
    hide Walking, Tree, Objects, Settable, Set, Get, Present, Leftover, IsInherited;
    assert done + [rest[0]] + rest[1..] == done + rest;
    OnTheWayAt(store, root, j, cur, done, rest, x, value, vj, valued, objects);
    WalkMaking(store, root, cur, done, x, value, vj, valued, rest[0], o);
    MakeOnTheWay(cur, done, rest[0], rest[1..], vj);
    LeftoverOnTheWay(cur, done, rest[0], rest[1..]);
  }

  lemma OnTheWayEnds(store: Store, root: Value, j: Json, cur: Json, done: seq<string>, rest: seq<string>, x: Value,
                     value: Value, vj: Json, valued: set<JsonObject>, objects: set<JsonObject>)
    requires OnTheWay(store, root, j, cur, done, rest, x, value, vj, valued) && (|rest| == 1 || !x.Ref?)
             && Within(store, root, cur, objects)
    ensures Settable(j, done + rest) <==> x.Ref?
    ensures x.Ref? ==> x.o in store && x.o in objects
    ensures x.Ref? ==>
            Within(store[x.o := Written(store[x.o], rest[0], value)], root, Set(j, done + rest, vj), objects + valued)
    ensures !x.Ref? ==> cur == Leftover(j, done + rest)
  {
    SettableFrom(cur, done, rest);
    if x.Ref? {
      assert rest == [rest[0]];
      WriteAt(store, root, cur, done, rest[0], value, vj);
    } else {
      LeftoverHere(cur, done, rest);
    }
  }

  /** An inherited name stops the walk, for what is found there is no record. */
  lemma OnTheWayStops(store: Store, root: Value, j: Json, cur: Json, done: seq<string>, rest: seq<string>, x: Value,
                      value: Value, vj: Json, valued: set<JsonObject>)
    requires OnTheWay(store, root, j, cur, done, rest, x, value, vj, valued) && |rest| > 1
    requires x.Ref? && x.o in store && rest[0] !in store[x.o].fields && IsInherited(rest[0])
    ensures !Settable(j, done + rest) && cur == Leftover(j, done + rest)
  {
    hide IsInherited;
    LeftoverHere(cur, done, rest);
  }

  /** The last write of a path. */
  method Assign(x: JsonObject, key: string, value: Value, ghost objects: set<JsonObject>)
    requires x in objects
    modifies x
    ensures StoreOf(objects) == old(StoreOf(objects))[x := Written(old(NodeOf(x)), key, value)]
  {
    x.Put(key, value);
  }

  /** `x` is to have a field `key`: a new empty record is made unless there is something already,
      be it inherited. */
  method EnsureField(x: JsonObject, key: string, ghost objects: set<JsonObject>) returns (ghost made: set<JsonObject>)
    requires x in objects
    modifies x
    ensures fresh(made)
    ensures if key in old(x.fields) || IsInherited(key)
            then made == {} && StoreOf(objects + made) == old(StoreOf(objects))
            else exists o ::
                   made == {o}
                   && StoreOf(objects + made)
                   == old(StoreOf(objects))[o := Node([], map[])][x := Written(old(NodeOf(x)), key, Ref(o))]
  {
    hide IsInherited;
    made := {};
    if key !in x.fields && !IsInherited(key) {
      var o := new JsonObject();
      made := {o};
      x.Put(key, Ref(o));
    } else {
      assert objects + made == objects;
    }
  }

  ghost predicate InLoop(store: Store, root: Value, j: Json, cur: Json, path: seq<string>, done: seq<string>,
                         rest: seq<string>, x: Value, value: Value, vj: Json, valued: set<JsonObject>,
                         objects: set<JsonObject>)
  {
    done + rest == path && OnTheWay(store, root, j, cur, done, rest, x, value, vj, valued)
      && Within(store, root, cur, objects)
  }

  /** The walk has come to a function, and the write will be refused. */
  ghost predicate Stopped(store: Store, root: Value, j: Json, cur: Json, path: seq<string>, x: Value,
                          objects: set<JsonObject>)
  {
    x == Nothing && !Settable(j, path) && cur == Leftover(j, path) && Within(store, root, cur, objects)
  }

  ghost predicate Looping(store: Store, root: Value, j: Json, cur: Json, path: seq<string>, done: seq<string>,
                          rest: seq<string>, x: Value, value: Value, vj: Json, valued: set<JsonObject>,
                          objects: set<JsonObject>)
  {
    || InLoop(store, root, j, cur, path, done, rest, x, value, vj, valued, objects)
    || Stopped(store, root, j, cur, path, x, objects)
  }

  /** What is found under a key of a node. */
  function Found(n: Node, key: string): Value {
    if key in n.fields then n.fields[key] else Nothing
  }

  lemma TurnOn(store: Store, root: Value, j: Json, cur: Json, path: seq<string>, done: seq<string>, rest: seq<string>,
               x: Value, value: Value, vj: Json, valued: set<JsonObject>, objects: set<JsonObject>)
    requires InLoop(store, root, j, cur, path, done, rest, x, value, vj, valued, objects)
    requires |rest| > 1 && x.Ref? && x.o in store && rest[0] in store[x.o].fields
    ensures InLoop(store, root, j, cur, path, done + [rest[0]], rest[1..], Found(store[x.o], rest[0]), value, vj,
                   valued, objects + {})
  {
    assert done + [rest[0]] + rest[1..] == done + rest && objects + {} == objects;
    hide OnTheWay, Within;
    OnTheWayOn(store, root, j, cur, done, rest, x, value, vj, valued);
  }

  lemma TurnStops(store: Store, root: Value, j: Json, cur: Json, path: seq<string>, done: seq<string>,
                  rest: seq<string>, x: Value, value: Value, vj: Json, valued: set<JsonObject>,
                  objects: set<JsonObject>)
    requires InLoop(store, root, j, cur, path, done, rest, x, value, vj, valued, objects)
    requires |rest| > 1 && x.Ref? && x.o in store && rest[0] !in store[x.o].fields && IsInherited(rest[0])
    ensures Stopped(store, root, j, cur, path, Found(store[x.o], rest[0]), objects + {})
  {
    assert objects + {} == objects;
    hide OnTheWay, Within, Settable, Leftover, IsInherited;
    OnTheWayStops(store, root, j, cur, done, rest, x, value, vj, valued);
  }

  lemma TurnMakes(store: Store, root: Value, j: Json, cur: Json, path: seq<string>, done: seq<string>,
                  rest: seq<string>, x: Value, value: Value, vj: Json, valued: set<JsonObject>,
                  objects: set<JsonObject>, o: JsonObject)
    requires InLoop(store, root, j, cur, path, done, rest, x, value, vj, valued, objects) && o !in store
    requires |rest| > 1 && x.Ref? && x.o in store && rest[0] !in store[x.o].fields && !IsInherited(rest[0])
    ensures Settable(cur, done + [rest[0]])
    ensures var after := store[o := Node([], map[])][x.o := Written(store[x.o], rest[0], Ref(o))];
            InLoop(after, root, j, Set(cur, done + [rest[0]], EMPTY), path, done + [rest[0]], rest[1..], Ref(o), value,
                   vj, valued, objects + {o})
  {
    assert done + [rest[0]] + rest[1..] == done + rest;
    hide OnTheWay, Within, Settable, Set, Leftover, IsInherited;
    OnTheWayMaking(store, root, j, cur, done, rest, x, value, vj, valued, o, objects);
  }

  lemma MadeFound(n: Node, key: string, v: Value)
    ensures Found(Written(n, key, v), key) == v
  {
  }

  /** One turn of the loop, in terms of what the objects hold before and after. */
  lemma Turn(before: Store, after: Store, root: Value, j: Json, cur: Json, path: seq<string>, done: seq<string>,
             rest: seq<string>, x: Value, value: Value, vj: Json, valued: set<JsonObject>, objects: set<JsonObject>,
             made: set<JsonObject>)
    returns (now: Json)
    requires Looping(before, root, j, cur, path, done, rest, x, value, vj, valued, objects)
    requires |rest| > 1 && x.Ref? && x.o in before && (forall o :: o in made ==> o !in before)
    requires var key := rest[0];
             if key in before[x.o].fields || IsInherited(key) then made == {} && after == before
             else exists o ::
                    made == {o} && after == before[o := Node([], map[])][x.o := Written(before[x.o], key, Ref(o))]
    ensures x.o in after
    ensures Looping(after, root, j, now, path, done + [rest[0]], rest[1..], Found(after[x.o], rest[0]), value, vj,
                    valued, objects + made)
  {
    assert InLoop(before, root, j, cur, path, done, rest, x, value, vj, valued, objects);
    now := cur;
    hide InLoop, Stopped, Set, Settable, IsInherited;
    if rest[0] in before[x.o].fields {
      TurnOn(before, root, j, cur, path, done, rest, x, value, vj, valued, objects);
    } else if IsInherited(rest[0]) {
      TurnStops(before, root, j, cur, path, done, rest, x, value, vj, valued, objects);
    } else {
      var o :| made == {o} && after == before[o := Node([], map[])][x.o := Written(before[x.o], rest[0], Ref(o))];
      TurnMakes(before, root, j, cur, path, done, rest, x, value, vj, valued, objects, o);
      MadeFound(before[x.o], rest[0], Ref(o));
      now := Set(cur, done + [rest[0]], EMPTY);
    }
  }

  lemma LoopingAt(store: Store, root: Value, j: Json, cur: Json, path: seq<string>, done: seq<string>,
                  rest: seq<string>, x: Value, value: Value, vj: Json, valued: set<JsonObject>,
                  objects: set<JsonObject>)
    requires Looping(store, root, j, cur, path, done, rest, x, value, vj, valued, objects)
    ensures x.Ref? ==> x.o in store && x.o in objects
    ensures x.Ref? ==> rest != []
  {
    if x.Ref? { OnTheWayAt(store, root, j, cur, done, rest, x, value, vj, valued, objects); }
  }

  lemma InLoopStarts(store: Store, root: Value, j: Json, path: seq<string>, value: Value, vj: Json)
    requires path != [] && Tree(store, root, j) && Tree(store, value, vj)
             && Objects(store, value, vj) !! Objects(store, root, j)
    ensures Looping(store, root, j, j, path, [], path, root, value, vj, Objects(store, value, vj),
                    Objects(store, root, j))
  {
    assert [] + path == path;
  }

  /** The last write, or its refusal. */
  lemma LoopingEnds(store: Store, root: Value, j: Json, cur: Json, path: seq<string>, done: seq<string>,
                    rest: seq<string>, x: Value, value: Value, vj: Json, valued: set<JsonObject>,
                    objects: set<JsonObject>)
    requires Looping(store, root, j, cur, path, done, rest, x, value, vj, valued, objects) && (|rest| <= 1 || !x.Ref?)
    ensures Settable(j, path) <==> x.Ref?
    ensures x.Ref? ==> x.o in store && x.o in objects && rest != []
    ensures x.Ref? ==>
            Within(store[x.o := Written(store[x.o], rest[0], value)], root, Set(j, path, vj), objects + valued)
    ensures !x.Ref? ==> Within(store, root, Leftover(j, path), objects)
  {
    hide Walking, Within, Leftover;
    if InLoop(store, root, j, cur, path, done, rest, x, value, vj, valued, objects) {
      OnTheWayAt(store, root, j, cur, done, rest, x, value, vj, valued, objects);
      OnTheWayEnds(store, root, j, cur, done, rest, x, value, vj, valued, objects);
    }
  }

  lemma EmptyPath(j: Json)
    ensures !Settable(j, []) && Leftover(j, []) == j
  {
  }

  lemma StoredAt(objects: set<JsonObject>, o: JsonObject)
    requires o in objects
    ensures o in StoreOf(objects) && StoreOf(objects)[o] == NodeOf(o) && NodeOf(o).fields == o.fields
  {
  }

  lemma StoredKeys(objects: set<JsonObject>)
    ensures StoreOf(objects).Keys == objects
  {
  }

  lemma SumAssociates(a: set<JsonObject>, b: set<JsonObject>, c: set<JsonObject>)
    ensures a + b + c == a + (b + c) && a + b + c == a + c + b
  {
  }

  /** The loop of `DeepSet`: follow all but the last step of the path, making records that are
      not there, and stop early at anything that is not a record. */
  method FollowMaking(root: Value, path: seq<string>, ghost value: Value, ghost j: Json, ghost vj: Json,
                      ghost repr: set<JsonObject>, ghost valued: set<JsonObject>, ghost owned: set<JsonObject>)
    returns (x: Value, rest: seq<string>, ghost cur: Json, ghost done: seq<string>, ghost made: set<JsonObject>)
    requires Looping(StoreOf(repr), root, j, j, path, [], path, root, value, vj, valued, owned)
    modifies owned
    ensures |rest| <= 1 || !x.Ref?
    ensures fresh(made)
            && Looping(StoreOf(repr + made), root, j, cur, path, done, rest, x, value, vj, valued, owned + made)
  {
    hide *;
    x, rest, cur, done, made := root, path, j, [], {};
    ghost var all, objects, store := repr, owned, StoreOf(repr);
    while |rest| > 1 && x.Ref?
      invariant fresh(made) && all == repr + made && objects == owned + made && store == StoreOf(all)
      invariant Looping(store, root, j, cur, path, done, rest, x, value, vj, valued, objects)
      decreases |rest|
    {
      StoredKeys(all);
      LoopingAt(store, root, j, cur, path, done, rest, x, value, vj, valued, objects);
      StoredAt(all, x.o);
      var key := rest[0];
      ghost var more := EnsureField(x.o, key, all);
      SumAssociates(repr, made, more);
      SumAssociates(owned, made, more);
      ghost var after := StoreOf(all + more);
      StoredAt(all + more, x.o);
      cur := Turn(store, after, root, j, cur, path, done, rest, x, value, vj, valued, objects, more);
      FoundAt(all + more, x.o, key);
      all, objects, store := all + more, objects + more, after;
      made := made + more;
      x, done, rest := FieldValue(x.o, key), done + [key], rest[1..];
    }
  }

  lemma FoundAt(objects: set<JsonObject>, o: JsonObject, key: string)
    requires o in objects
    ensures o in StoreOf(objects) && Found(StoreOf(objects)[o], key) == FieldValue(o, key)
  {
  }

  /** Write `value` at a path, making records where there is nothing on the way. It is refused if
      the path is empty, or something on the way is not a record, or is a function that objects
      inherit; then only the records on the way to that function have been made. */
  method DeepSet(root: Value, path: seq<string>, value: Value, ghost j: Json, ghost vj: Json,
                 ghost repr: set<JsonObject>)
    returns (ok: bool, ghost made: set<JsonObject>)
    requires Tree(StoreOf(repr), root, j) && Tree(StoreOf(repr), value, vj) && "__proto__" !in path
    requires Objects(StoreOf(repr), value, vj) !! Objects(StoreOf(repr), root, j)
    modifies Objects(StoreOf(repr), root, j)
    ensures ok <==> Settable(j, path)
    ensures fresh(made)
    ensures ok ==>
            Within(StoreOf(repr + made), root, Set(j, path, vj),
                   old(Objects(StoreOf(repr), root, j) + Objects(StoreOf(repr), value, vj)) + made)
    ensures !ok ==>
            Within(StoreOf(repr + made), root, Leftover(j, path), old(Objects(StoreOf(repr), root, j)) + made)
  {
    ghost var owned := Objects(StoreOf(repr), root, j);
    ghost var valued := Objects(StoreOf(repr), value, vj);
    hide *;
    if |path| == 0 {
      EmptyPath(j);
      WithinItself(repr, root, j);
      return false, {};
    }
    InLoopStarts(StoreOf(repr), root, j, path, value, vj);
    var x, rest;
    ghost var cur, done;
    x, rest, cur, done, made := FollowMaking(root, path, value, j, vj, repr, valued, owned);
    ghost var all := repr + made;
    StoredKeys(all);
    LoopingEnds(StoreOf(all), root, j, cur, path, done, rest, x, value, vj, valued, owned + made);
    if !x.Ref? { return false, made; }
    StoredAt(all, x.o);
    Assign(x.o, rest[0], value, all);
    SumAssociates(owned, made, valued);
    return true, made;
  }

  lemma WithinItself(repr: set<JsonObject>, root: Value, j: Json)
    requires Tree(StoreOf(repr), root, j)
    ensures Within(StoreOf(repr + {}), root, j, Objects(StoreOf(repr), root, j) + {})
  {
    assert repr + {} == repr;
  }
}
