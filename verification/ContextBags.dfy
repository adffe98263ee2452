/** The layered context of the CLI: property bags, some of them read-only. */
module ContextBags {
  import opened Options

  type Value = string

  class Settings {
    var settings: map<string, Value>
    const readOnly: bool

    constructor (settings: map<string, Value>, readOnly: bool)
      ensures this.settings == settings && this.readOnly == readOnly
    {
      this.settings, this.readOnly := settings, readOnly;
    }

    function Get(key: string): Option<Value>
      reads this
    {
      if key in settings then Some(settings[key]) else None
    }

    /** Setting no value removes the key. */
    method Set(key: string, value: Option<Value>)
      requires !readOnly
      modifies this
      ensures settings == Assigned(old(settings), key, value)
    {
      if value.Some? { settings := settings[key := value.value]; } else { settings := settings - {key}; }
    }
  }

  function Assigned(m: map<string, Value>, key: string, value: Option<Value>): map<string, Value> {
    if value.Some? then m[key := value.value] else m - {key}
  }

  // ---------------------------------------------------------------- bags as values

  /** What a bag holds, and whether it can be written. */
  datatype Bag = Bag(readOnly: bool, settings: map<string, Value>)

  function Held(b: Bag, key: string): Option<Value> {
    if key in b.settings then Some(b.settings[key]) else None
  }

  function Or(a: Option<Value>, b: Option<Value>): Option<Value> {
    if a.Some? then a else b
  }

  /** The first value for `key`. */
  function Lookup(bags: seq<Bag>, key: string): Option<Value> {
    if bags == [] then None else Or(Held(bags[0], key), Lookup(bags[1..], key))
  }

  /** The first writable bag takes the value and the later ones lose theirs. */
  function SetBags(bags: seq<Bag>, key: string, value: Option<Value>): (r: seq<Bag>)
    ensures |r| == |bags|
  {
    if bags == [] then []
    else if bags[0].readOnly then [bags[0]] + SetBags(bags[1..], key, value)
    else [bags[0].(settings := Assigned(bags[0].settings, key, value))] + SetBags(bags[1..], key, None)
  }

  /** The value found is that of the first bag that has the key. */
  lemma {:induction false} LookupIsFirst(bags: seq<Bag>, key: string) returns (i: nat)
    ensures i <= |bags| && forall k :: 0 <= k < i ==> key !in bags[k].settings
    ensures if i == |bags| then Lookup(bags, key) == None
            else key in bags[i].settings && Lookup(bags, key) == Some(bags[i].settings[key])
  {
    if bags == [] || key in bags[0].settings {
      i := 0;
    } else {
      i := LookupIsFirst(bags[1..], key);
      i := i + 1;
    }
  }

  /** The bag can be written, and none before it can. */
  ghost predicate IsFirstWritable(bags: seq<Bag>, i: nat)
    requires i < |bags|
  {
    !bags[i].readOnly && forall k :: 0 <= k < i ==> bags[k].readOnly
  }

  /** What setting a key makes of each bag. */
  lemma {:induction false} SetBagsAt(bags: seq<Bag>, key: string, value: Option<Value>, i: nat)
    requires i < |bags|
    ensures SetBags(bags, key, value)[i] ==
            if bags[i].readOnly then bags[i]
            else if IsFirstWritable(bags, i) && value.Some? then Bag(false, bags[i].settings[key := value.value])
            else Bag(false, bags[i].settings - {key})
  {
    if i > 0 {
      SetBagsAt(bags[1..], key, if bags[0].readOnly then value else None, i - 1);
      if bags[0].readOnly {
        assert IsFirstWritable(bags, i) <==> IsFirstWritable(bags[1..], i - 1) by {
          assert forall k :: 0 < k < i ==> bags[k] == bags[1..][k - 1];
        }
      } else {
        assert !IsFirstWritable(bags, i);
      }
    }
  }

  // ---------------------------------------------------------------- the reference: one map between constants

  function Writable(bags: seq<Bag>): bool {
    bags != [] && (!bags[0].readOnly || Writable(bags[1..]))
  }

  /** The value that the read-only bags ahead of the first writable one fix. */
  function Ahead(bags: seq<Bag>, key: string): Option<Value> {
    if bags == [] || !bags[0].readOnly then None else Or(Held(bags[0], key), Ahead(bags[1..], key))
  }

  /** The value that the read-only bags after the first writable one fall back to. */
  function Behind(bags: seq<Bag>, key: string): Option<Value> {
    if bags == [] then None
    else if bags[0].readOnly then Behind(bags[1..], key)
    else ReadOnlyValue(bags[1..], key)
  }

  function ReadOnlyValue(bags: seq<Bag>, key: string): Option<Value> {
    if bags == [] then None
    else if bags[0].readOnly then Or(Held(bags[0], key), ReadOnlyValue(bags[1..], key))
    else ReadOnlyValue(bags[1..], key)
  }

  function Layered(bags: seq<Bag>, key: string, value: Option<Value>): Option<Value> {
    Or(Ahead(bags, key), Or(if Writable(bags) then value else None, Behind(bags, key)))
  }

  datatype Op = Set(key: string, value: Value) | Unset(key: string) | Clear

  function Step(bags: seq<Bag>, op: Op): seq<Bag> {
    match op
    case Set(key, value) => SetBags(bags, key, Some(value))
    case Unset(key) => SetBags(bags, key, None)
    case Clear => ClearBags(bags)
  }

  function Run(bags: seq<Bag>, ops: seq<Op>): seq<Bag> {
    if ops == [] then bags else Step(Run(bags, ops[..|ops| - 1]), ops[|ops| - 1])
  }

  /** Every key is taken out of every writable bag. */
  function ClearBags(bags: seq<Bag>): (r: seq<Bag>)
    ensures |r| == |bags|
  {
    if bags == [] then [] else [if bags[0].readOnly then bags[0] else Bag(false, map[])] + ClearBags(bags[1..])
  }

  /** What the operations so far have to say about `key`, the last of them first. */
  function Last(ops: seq<Op>, key: string): Option<Option<Value>> {
    if ops == [] then None
    else
      var op := ops[|ops| - 1];
      match op
      case Set(k, v) => if k == key then Some(Some(v)) else Last(ops[..|ops| - 1], key)
      case Unset(k) => if k == key then Some(None) else Last(ops[..|ops| - 1], key)
      case Clear => Some(None)
  }

  /** The operation is about the key: it sets or unsets it, or clears everything. */
  predicate About(op: Op, key: string) {
    op.Clear? || op.key == key
  }

  /** The last operation about the key decides. */
  lemma {:induction false} LastIs(ops: seq<Op>, key: string) returns (i: int)
    ensures -1 <= i < |ops| && forall k :: i < k < |ops| ==> !About(ops[k], key)
    ensures if i == -1 then Last(ops, key) == None
            else About(ops[i], key) && Last(ops, key) == Some(if ops[i].Set? then Some(ops[i].value) else None)
  {
    if ops == [] {
      i := -1;
    } else if About(ops[|ops| - 1], key) {
      i := |ops| - 1;
    } else {
      i := LastIs(ops[..|ops| - 1], key);
    }
  }

  /** A read-only bag has what it has, and of the others only the first has anything: the value. */
  ghost predicate LayerHas(bags: seq<Bag>, i: nat, key: string, value: Option<Value>, v: Value)
    requires i < |bags|
  {
    if bags[i].readOnly then key in bags[i].settings && v == bags[i].settings[key]
    else IsFirstWritable(bags, i) && value == Some(v)
  }

  /** The layers give the value of the first of them that has one. */
  lemma LayeredIsFirst(bags: seq<Bag>, key: string, value: Option<Value>) returns (i: nat)
    ensures i <= |bags| && forall k, v :: 0 <= k < i ==> !LayerHas(bags, k, key, value, v)
    ensures if i == |bags| then Layered(bags, key, value) == None
            else exists v :: LayerHas(bags, i, key, value, v) && Layered(bags, key, value) == Some(v)
  {
    var after := SetBags(EmptyWritable(bags), key, value);
    i := LookupIsFirst(after, key);
    LookupAfterSet(EmptyWritable(bags), key, value, key);
    EmptyKeepsReadOnly(bags);
    SameLayers(bags, EmptyWritable(bags), key, value);
    forall k | 0 <= k < |bags|
      ensures forall v :: LayerHas(bags, k, key, value, v) <==>
                key in after[k].settings && after[k].settings[key] == v
    {
      SetBagsAt(EmptyWritable(bags), key, value, k);
      assert IsFirstWritable(bags, k) <==> IsFirstWritable(EmptyWritable(bags), k);
    }
    forall k, v | 0 <= k < i ensures !LayerHas(bags, k, key, value, v) { assert key !in after[k].settings; }
  }

  function EmptyWritable(bags: seq<Bag>): (r: seq<Bag>)
    ensures |r| == |bags|
    ensures forall i :: 0 <= i < |r| ==> r[i] == if bags[i].readOnly then bags[i] else Bag(false, map[])
  {
    seq(|bags|, i requires 0 <= i < |bags| => if bags[i].readOnly then bags[i] else Bag(false, map[]))
  }

  lemma EmptyKeepsReadOnly(bags: seq<Bag>)
    ensures SameReadOnly(bags, EmptyWritable(bags))
  {
  }

  lemma {:induction false} LaterErased(bags: seq<Bag>, key: string)
    ensures Lookup(SetBags(bags, key, None), key) == ReadOnlyValue(bags, key)
    ensures Lookup(ClearBags(bags), key) == ReadOnlyValue(bags, key)
  {
    if bags != [] {
      LaterErased(bags[1..], key);
      assert SetBags(bags, key, None)[1..] == SetBags(bags[1..], key, None)
             && ClearBags(bags)[1..] == ClearBags(bags[1..]);
    }
  }

  /** A key that is set reads as the layers say, and no other key changes. */
  lemma {:induction false} LookupAfterSet(bags: seq<Bag>, key: string, value: Option<Value>, other: string)
    ensures Lookup(SetBags(bags, key, value), other)
            == if other == key then Layered(bags, key, value) else Lookup(bags, other)
  {
    if bags != [] {
      assert SetBags(bags, key, value)[1..]
             == if bags[0].readOnly then SetBags(bags[1..], key, value) else SetBags(bags[1..], key, None);
      if bags[0].readOnly {
        LookupAfterSet(bags[1..], key, value, other);
      } else {
        LookupAfterSet(bags[1..], key, None, other);
      }
      LaterErased(bags[1..], key);
    }
  }

  lemma {:induction false} LookupAfterClear(bags: seq<Bag>, key: string)
    ensures Lookup(ClearBags(bags), key) == Layered(bags, key, None)
  {
    if bags != [] {
      assert ClearBags(bags)[1..] == ClearBags(bags[1..]);
      if bags[0].readOnly { LookupAfterClear(bags[1..], key); } else { LaterErased(bags[1..], key); }
    }
  }

  /** Only writable bags change. */
  ghost predicate SameReadOnly(a: seq<Bag>, b: seq<Bag>) {
    |a| == |b| && forall i :: 0 <= i < |a| ==> a[i].readOnly == b[i].readOnly && (a[i].readOnly ==> a[i] == b[i])
  }

  lemma {:induction false} StepKeepsReadOnly(bags: seq<Bag>, key: string, value: Option<Value>)
    ensures SameReadOnly(bags, SetBags(bags, key, value)) && SameReadOnly(bags, ClearBags(bags))
  {
    if bags != [] {
      StepKeepsReadOnly(bags[1..], key, if bags[0].readOnly then value else None);
      var r, c := SetBags(bags, key, value), ClearBags(bags);
      forall i | 0 < i < |bags|
        ensures bags[i].readOnly == r[i].readOnly == c[i].readOnly && (bags[i].readOnly ==> bags[i] == r[i] == c[i])
      {
        assert bags[i] == bags[1..][i - 1] && r[i] == r[1..][i - 1] && c[i] == c[1..][i - 1];
      }
    }
  }

  lemma {:induction false} SameLayers(a: seq<Bag>, b: seq<Bag>, key: string, value: Option<Value>)
    requires SameReadOnly(a, b)
    ensures Layered(a, key, value) == Layered(b, key, value)
    ensures Writable(a) == Writable(b) && Ahead(a, key) == Ahead(b, key) && Behind(a, key) == Behind(b, key)
            && ReadOnlyValue(a, key) == ReadOnlyValue(b, key)
  {
    if a != [] {
      assert SameReadOnly(a[1..], b[1..]);
      SameLayers(a[1..], b[1..], key, value);
    }
  }

  lemma {:induction false} RunKeepsReadOnly(bags: seq<Bag>, ops: seq<Op>)
    ensures SameReadOnly(bags, Run(bags, ops))
  {
    if ops != [] {
      RunKeepsReadOnly(bags, ops[..|ops| - 1]);
      match ops[|ops| - 1]
      case Set(k, v) => StepKeepsReadOnly(Run(bags, ops[..|ops| - 1]), k, Some(v));
      case Unset(k) => StepKeepsReadOnly(Run(bags, ops[..|ops| - 1]), k, None);
      case Clear => StepKeepsReadOnly(Run(bags, ops[..|ops| - 1]), "", None);
    }
  }

  /** After any operations, a key reads as it did if none of them was about it, and otherwise as
      if its last value stood in one map between the read-only bags. */
  lemma {:induction false} RunReads(bags: seq<Bag>, ops: seq<Op>, key: string)
    ensures Lookup(Run(bags, ops), key) ==
            match Last(ops, key) case None => Lookup(bags, key) case Some(value) => Layered(bags, key, value)
  {
    if ops != [] {
      var init, op := ops[..|ops| - 1], ops[|ops| - 1];
      var before := Run(bags, init);
      RunReads(bags, init, key);
      RunKeepsReadOnly(bags, init);
      hide Run, SetBags, ClearBags, Layered, Lookup;
      assert Run(bags, ops) == Step(before, op) by { RunLast(bags, ops); }
      match op
      case Set(k, v) =>
        LookupAfterSet(before, k, Some(v), key);
        SameLayers(bags, before, key, Some(v));
      case Unset(k) =>
        LookupAfterSet(before, k, None, key);
        SameLayers(bags, before, key, None);
      case Clear =>
        LookupAfterClear(before, key);
        SameLayers(bags, before, key, None);
    }
  }

  lemma RunLast(bags: seq<Bag>, ops: seq<Op>)
    requires ops != []
    ensures Run(bags, ops) == Step(Run(bags, ops[..|ops| - 1]), ops[|ops| - 1])
  {
  }

  lemma {:induction false} UnsetAt(bags: seq<Bag>, key: string, i: nat)
    requires i < |bags|
    ensures SetBags(bags, key, None)[i] == if bags[i].readOnly then bags[i] else Bag(false, bags[i].settings - {key})
  {
    if i > 0 { UnsetAt(bags[1..], key, i - 1); }
  }

  lemma {:induction false} ClearAt(bags: seq<Bag>, i: nat)
    requires i < |bags|
    ensures ClearBags(bags)[i] == if bags[i].readOnly then bags[i] else Bag(false, map[])
  {
    if i > 0 { ClearAt(bags[1..], i - 1); }
  }

  lemma {:induction false} HeldIsFound(bags: seq<Bag>, i: nat, key: string)
    requires i < |bags| && key in bags[i].settings
    ensures Lookup(bags, key).Some?
  {
    if i > 0 { HeldIsFound(bags[1..], i - 1, key); }
  }

  lemma AllCleared(was: seq<Bag>, now: seq<Bag>)
    requires SameReadOnly(was, now) && forall i :: 0 <= i < |now| && !now[i].readOnly ==> now[i].settings == map[]
    ensures now == ClearBags(was)
  {
    forall i | 0 <= i < |now| ensures now[i] == ClearBags(was)[i] {
      ClearAt(was, i);
    }
  }

  /** No writable bag but the first one holds the key. */
  ghost predicate OnlyFirst(bags: seq<Bag>, key: string) {
    forall i, k :: 0 <= i < k < |bags| && !bags[i].readOnly && !bags[k].readOnly ==> key !in bags[k].settings
  }

  lemma {:induction false} SetAt(bags: seq<Bag>, key: string, value: Option<Value>, i: nat)
    requires i < |bags|
    ensures var r := SetBags(bags, key, value)[i];
      && r.readOnly == bags[i].readOnly
      && (forall k :: k != key ==> (k in r.settings <==> k in bags[i].settings))
      && ((exists k :: 0 <= k < i && !bags[k].readOnly) && !bags[i].readOnly ==> key !in r.settings)
  {
    if i > 0 {
      SetAt(bags[1..], key, if bags[0].readOnly then value else None, i - 1);
      if k :| 0 <= k < i && !bags[k].readOnly {
        if k == 0 { UnsetAt(bags[1..], key, i - 1); } else { assert bags[1..][k - 1] == bags[k]; }
      }
    }
  }

  lemma SetOnlyFirst(bags: seq<Bag>, key: string, value: Option<Value>, other: string)
    requires other == key || OnlyFirst(bags, other)
    ensures OnlyFirst(SetBags(bags, key, value), other)
  {
    forall i | 0 <= i < |bags|
      ensures SetBags(bags, key, value)[i].readOnly == bags[i].readOnly
    {
      SetAt(bags, key, value, i);
    }
    forall i, k | 0 <= i < k < |bags| && !bags[i].readOnly && !bags[k].readOnly
      ensures other !in SetBags(bags, key, value)[k].settings
    {
      SetAt(bags, key, value, k);
    }
  }

  /** A key that an operation was about is in no writable bag but the first. */
  lemma {:induction false} TouchedInOneBag(bags: seq<Bag>, ops: seq<Op>, key: string)
    requires Last(ops, key).Some?
    ensures OnlyFirst(Run(bags, ops), key)
  {
    var init, op := ops[..|ops| - 1], ops[|ops| - 1];
    var before := Run(bags, init);
    if Last(init, key).Some? { TouchedInOneBag(bags, init, key); }
    hide SetBags, OnlyFirst;
    match op
    case Set(k, v) => SetOnlyFirst(before, k, Some(v), key);
    case Unset(k) => SetOnlyFirst(before, k, None, key);
    case Clear => ClearOnlyFirst(before, key);
  }

  lemma ClearOnlyFirst(bags: seq<Bag>, key: string)
    ensures OnlyFirst(ClearBags(bags), key)
  {
    forall i | 0 <= i < |bags|
      ensures ClearBags(bags)[i] == if bags[i].readOnly then bags[i] else Bag(false, map[])
    {
      ClearAt(bags, i);
    }
  }

  /** Every key in a writable bag is among `keys`. */
  ghost predicate LeftToClear(bags: seq<Bag>, keys: set<string>) {
    forall i :: 0 <= i < |bags| && !bags[i].readOnly ==> bags[i].settings.Keys <= keys
  }

  lemma OneCleared(bags: seq<Bag>, keys: set<string>, key: string)
    requires LeftToClear(bags, keys)
    ensures LeftToClear(SetBags(bags, key, None), keys - {key})
  {
    forall i | 0 <= i < |bags|
      ensures SetBags(bags, key, None)[i] == if bags[i].readOnly then bags[i] else Bag(false, bags[i].settings - {key})
    {
      UnsetAt(bags, key, i);
    }
  }

  // ---------------------------------------------------------------- the context itself

  lemma SetBagsNext(bags: seq<Bag>, i: nat, key: string, v: Option<Value>)
    requires i < |bags|
    ensures SetBags(bags[i..], key, v) ==
            if bags[i].readOnly then [bags[i]] + SetBags(bags[i + 1..], key, v)
            else [bags[i].(settings := Assigned(bags[i].settings, key, v))] + SetBags(bags[i + 1..], key, None)
  {
    assert bags[i..][1..] == bags[i + 1..];
  }

  /** The first `i` bags have been dealt with, and the others are as they were. */
  ghost predicate SetUpTo(was: seq<Bag>, now: seq<Bag>, i: nat, key: string, v: Option<Value>, value: Option<Value>) {
    && |now| == |was| && i <= |was| && now[i..] == was[i..]
    && now[..i] + SetBags(was[i..], key, v) == SetBags(was, key, value)
  }

  lemma SetUpToNext(was: seq<Bag>, before: seq<Bag>, i: nat, key: string, v: Option<Value>, value: Option<Value>)
    requires SetUpTo(was, before, i, key, v, value) && i < |was|
    ensures before[i] == was[i]
    ensures var b := before[i];
            if b.readOnly then SetUpTo(was, before, i + 1, key, v, value)
            else SetUpTo(was, before[i := b.(settings := Assigned(b.settings, key, v))], i + 1, key, None, value)
  {
    hide SetBags, Assigned;
    SetBagsNext(was, i, key, v);
    assert before[i..][0] == was[i..][0] && before[i + 1..] == before[i..][1..] == was[i..][1..] == was[i + 1..];
    var x := if before[i].readOnly then before[i] else before[i].(settings := Assigned(before[i].settings, key, v));
    var after := before[i := x];
    Reassociate(before[..i], x, SetBags(was[i + 1..], key, if x.readOnly then v else None));
    assert after[..i + 1] == before[..i] + [x] && after[i + 1..] == before[i + 1..];
    if x.readOnly { assert after == before; }
  }

  lemma Reassociate(a: seq<Bag>, x: Bag, b: seq<Bag>)
    ensures a + ([x] + b) == a + [x] + b
  {
  }

  class Context {
    const bags: seq<Settings>

    /** The bags are different objects. */
    ghost predicate Valid() {
      forall i, k :: 0 <= i < k < |bags| ==> bags[i] != bags[k]
    }

    ghost function Contents(): (r: seq<Bag>)
      reads bags
      ensures |r| == |bags|
    {
      seq(|bags|, i requires 0 <= i < |bags| reads bags => Bag(bags[i].readOnly, bags[i].settings))
    }

    constructor (bags: seq<Settings>)
      requires forall i, k :: 0 <= i < k < |bags| ==> bags[i] != bags[k]
      ensures Valid() && (bags != [] ==> this.bags == bags)
      ensures bags == [] ==> Contents() == [Bag(false, map[])] && fresh(this.bags[0])
    {
      var own := new Settings(map[], false);
      this.bags := if |bags| > 0 then bags else [own];
    }

    method Get(key: string) returns (v: Option<Value>)
      ensures v == Lookup(Contents(), key)
    {
      var i := 0;
      while i < |bags|
        invariant 0 <= i <= |bags| && Lookup(Contents(), key) == Lookup(Contents()[i..], key)
      {
        v := bags[i].Get(key);
        if v.Some? { return; }
        i := i + 1;
      }
      v := None;
    }

    method Set(key: string, value: Option<Value>)
      requires Valid()
      modifies bags
      ensures Contents() == SetBags(old(Contents()), key, value)
    {
      ghost var was := Contents();
      var i, v := 0, value;
      assert was[0..] == was && was[..0] == [];
      while i < |bags|
        invariant 0 <= i <= |bags| && SetUpTo(was, Contents(), i, key, v, value)
      {
        hide SetUpTo, Assigned;
        SetUpToNext(was, Contents(), i, key, v, value);
        if !bags[i].readOnly {
          ghost var before := Contents();
          bags[i].Set(key, v);
          assert Contents() == before[i := Contents()[i]];
          v := None;
        }
        i := i + 1;
      }
    }

    method Unset(key: string)
      requires Valid()
      modifies bags
      ensures Contents() == SetBags(old(Contents()), key, None)
    {
      Set(key, None);
    }

    /** The keys of all bags. */
    method Keys() returns (keys: set<string>)
      ensures forall k :: k in keys <==> Lookup(Contents(), k).Some?
    {
      keys := {};
      var i := |bags|;
      while i > 0
        invariant 0 <= i <= |bags| && forall k :: k in keys <==> Lookup(Contents()[i..], k).Some?
      {
        i := i - 1;
        assert Contents()[i..][1..] == Contents()[i + 1..];
        keys := keys + bags[i].settings.Keys;
      }
      assert Contents()[0..] == Contents();
    }

    method Clear()
      requires Valid()
      modifies bags
      ensures Contents() == ClearBags(old(Contents()))
    {
      ghost var was := Contents();
      var keys := Keys();
      forall i, k | 0 <= i < |was| && k in was[i].settings ensures k in keys { HeldIsFound(was, i, k); }
      while keys != {}
        invariant SameReadOnly(was, Contents()) && LeftToClear(Contents(), keys)
      {
        var key :| key in keys;
        OneCleared(Contents(), keys, key);
        StepKeepsReadOnly(Contents(), key, None);
        Unset(key);
        keys := keys - {key};
      }
      AllCleared(was, Contents());
    }
  }
}
