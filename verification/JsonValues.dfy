/** JSON documents as values, and reading and writing them by path. */
module JsonValues {

  /** `Other` is a number, a boolean, null or an array. A record lists its keys in order. */
  datatype Json =
    | Undefined
    | Text(s: string)
    | Other(text: string)
    | Record(keys: seq<string>, fields: map<string, Json>)

  const EMPTY := Record([], map[])

  ghost predicate WellFormed(j: Json) {
    j.Record? ==>
      && Different(j.keys)
      && (forall k :: k in j.keys <==> k in j.fields)
      && (forall k :: k in j.fields ==> WellFormed(j.fields[k]))
  }

  // ---------------------------------------------------------------- keys of objects

  predicate IsDigits(k: string) {
    forall i :: 0 <= i < |k| ==> '0' <= k[i] <= '9'
  }

  function NumberOf(k: string): nat
    requires IsDigits(k)
  {
    if k == "" then 0 else 10 * NumberOf(k[..|k| - 1]) + (k[|k| - 1] as int - '0' as int)
  }

  const MAX_INDEX := 4294967294

  /** A number as it is written for an index of an array. */
  predicate IsIndex(k: string) {
    k != "" && IsDigits(k) && (k[0] == '0' ==> |k| == 1) && NumberOf(k) <= MAX_INDEX
  }

  const DIGITS := "0123456789"

  /** A number in decimals. */
  function Decimal(n: nat): string {
    if n < 10 then [DIGITS[n]] else Decimal(n / 10) + [DIGITS[n % 10]]
  }

  lemma {:induction false} DecimalBack(n: nat)
    ensures Decimal(n) != "" && IsDigits(Decimal(n)) && NumberOf(Decimal(n)) == n
    ensures Decimal(n)[0] == '0' ==> n == 0
  {
    var k := Decimal(n);
    if n < 10 {
      assert k[..|k| - 1] == "" && k[|k| - 1] == DIGITS[n];
    } else {
      DecimalBack(n / 10);
      assert k[..|k| - 1] == Decimal(n / 10) && k[|k| - 1] == DIGITS[n % 10];
    }
  }

  lemma {:induction false} ReadBack(k: string)
    requires k != "" && IsDigits(k) && (k[0] == '0' ==> |k| == 1)
    ensures k == Decimal(NumberOf(k)) && (k[0] != '0' ==> NumberOf(k) > 0)
  {
    NumberSplit(k);
    hide *;
    var init, d := k[..|k| - 1], k[|k| - 1] as int - '0' as int;
    assert k == init + [DIGITS[d]];
    if init == "" {
      OneDigit(d);
    } else {
      assert init[0] == k[0];
      ReadBack(init);
      OneMoreDigit(NumberOf(init), d);
    }
  }

  lemma NumberSplit(k: string)
    requires k != "" && IsDigits(k)
    ensures var init, d := k[..|k| - 1], k[|k| - 1] as int - '0' as int;
      && 0 <= d < 10 && DIGITS[d] == k[|k| - 1] && IsDigits(init) && NumberOf(k) == 10 * NumberOf(init) + d
      && NumberOf("") == 0 && (k[0] == '0' && |k| == 1 ==> d == 0) && (k[0] != '0' && |k| == 1 ==> d > 0)
  {
  }

  lemma OneDigit(d: nat)
    requires d < 10
    ensures Decimal(d) == [DIGITS[d]]
  {
  }

  lemma OneMoreDigit(n: nat, d: nat)
    requires n > 0 && d < 10
    ensures Decimal(10 * n + d) == Decimal(n) + [DIGITS[d]]
  {
    assert (10 * n + d) / 10 == n && (10 * n + d) % 10 == d;
  }

  /** The indices are the numbers up to that limit, in decimals without leading zeros. */
  lemma IndicesAre(k: string)
    ensures IsIndex(k) <==> exists n: nat :: n <= MAX_INDEX && k == Decimal(n)
  {
    if IsIndex(k) { ReadBack(k); }
    if n: nat :| n <= MAX_INDEX && k == Decimal(n) {
      DecimalBack(n);
      assert n == 0 ==> |k| == 1;
    }
  }

  predicate IndexBefore(k: string, l: string) {
    IsIndex(k) && (IsIndex(l) ==> NumberOf(k) < NumberOf(l))
  }

  /** Indices come first, by size, and then the other keys in the order in which they came. */
  function Insert(keys: seq<string>, k: string): (r: seq<string>)
    ensures forall l :: l in r <==> l in keys || l == k
    ensures k !in keys && Different(keys) ==> Different(r)
  {
    if !IsIndex(k) then keys + [k]
    else if keys != [] && IndexBefore(keys[0], k) then
      var r := Insert(keys[1..], k);
      assert Different(keys) ==> Different(keys[1..]) && keys[0] !in keys[1..];
      [keys[0]] + r
    else [k] + keys
  }

  /** The other keys keep their order, and an index goes behind those that are before it. */
  lemma {:induction false} InsertedBetween(keys: seq<string>, k: string) returns (i: nat)
    ensures i <= |keys| && Insert(keys, k) == keys[..i] + [k] + keys[i..]
    ensures forall j :: 0 <= j < i && IsIndex(k) ==> IndexBefore(keys[j], k)
    ensures if IsIndex(k) then i < |keys| ==> !IndexBefore(keys[i], k) else i == |keys|
  {
    hide IsIndex, IndexBefore, Different;
    if !IsIndex(k) {
      i := |keys|;
    } else if keys != [] && IndexBefore(keys[0], k) {
      i := InsertedBetween(keys[1..], k);
      assert [keys[0]] + keys[1..][..i] == keys[..i + 1] && keys[1..][i..] == keys[i + 1..];
      assert [keys[0]] + (keys[1..][..i] + [k] + keys[1..][i..]) == keys[..i + 1] + [k] + keys[i + 1..];
      i := i + 1;
    } else {
      i := 0;
    }
  }

  ghost predicate Different(keys: seq<string>) {
    forall i, n :: 0 <= i < n < |keys| ==> keys[i] != keys[n]
  }

  ghost predicate Ordered(keys: seq<string>) {
    forall i, n :: 0 <= i < n < |keys| && IsIndex(keys[n]) ==> IndexBefore(keys[i], keys[n])
  }

  lemma {:induction false} InsertOrdered(keys: seq<string>, k: string)
    requires Ordered(keys) && k !in keys
    ensures Ordered(Insert(keys, k))
  {
    if IsIndex(k) && keys != [] {
      if IsIndex(keys[0]) && NumberOf(keys[0]) == NumberOf(k) { NumbersDiffer(keys[0], k); }
      var rest, r := Insert(keys[1..], k), Insert(keys, k);
      if IndexBefore(keys[0], k) {
        InsertOrdered(keys[1..], k);
        forall i, n | 0 <= i < n < |r| && IsIndex(r[n]) ensures IndexBefore(r[i], r[n]) {
          assert r[n] in rest && (r[n] != k ==> r[n] in keys[1..]);
          if i == 0 && r[n] != k { var m :| 0 < m < |keys| && keys[m] == r[n]; }
        }
      } else {
        forall i, n | 0 <= i < n < |r| && IsIndex(r[n]) ensures IndexBefore(r[i], r[n]) {
          if i == 0 && n > 1 { assert IndexBefore(keys[0], keys[n - 1]); }
        }
      }
    }
  }

  /** Names that an object has without having a field of that name: what is found there is a function. */
  predicate IsInherited(k: string) {
    k in ["constructor", "hasOwnProperty", "isPrototypeOf", "propertyIsEnumerable", "toLocaleString", "toString",
          "valueOf", "__defineGetter__", "__defineSetter__", "__lookupGetter__", "__lookupSetter__"]
  }

  // ---------------------------------------------------------------- fields and paths

  /** A field of a record. A function found under an inherited name counts as nothing: it has no
      text and nothing further to look at. */
  function Field(j: Json, k: string): Json
    requires j.Record?
  {
    if k in j.fields then j.fields[k] else Undefined
  }

  function With(j: Json, k: string, v: Json): Json
    requires j.Record?
  {
    Record(if k in j.fields then j.keys else Insert(j.keys, k), j.fields[k := v])
  }

  /** The value a path leads to; a path that runs into a plain value leads nowhere. */
  function Get(j: Json, path: seq<string>): Json
    decreases |path|
  {
    if path == [] then j
    else if j.Record? then Get(Field(j, path[0]), path[1..])
    else Undefined
  }

  /** Everything that there is on the way along `path` is a record, and where there is nothing, no
      name is inherited. */
  predicate Settable(j: Json, path: seq<string>)
    decreases |path|
  {
    path != [] && j.Record? && (|path| > 1 ==>
      if path[0] in j.fields then Settable(j.fields[path[0]], path[1..])
      else !IsInherited(path[0]) && Settable(EMPTY, path[1..]))
  }

  /** No part of the path but the last is an inherited name. */
  ghost predicate Makeable(path: seq<string>) {
    forall i :: 0 <= i < |path| - 1 ==> !IsInherited(path[i])
  }

  /** `j` with `v` at `path`, and with records made where there is nothing on the way. */
  function Set(j: Json, path: seq<string>, v: Json): Json
    requires Settable(j, path)
    decreases |path|
  {
    if |path| == 1 then With(j, path[0], v)
    else With(j, path[0], Set(if path[0] in j.fields then j.fields[path[0]] else EMPTY, path[1..], v))
  }

  // ---------------------------------------------------------------- laws

  lemma {:induction false} SetKeepsWellFormed(j: Json, path: seq<string>, v: Json)
    requires WellFormed(j) && WellFormed(v) && Settable(j, path)
    ensures WellFormed(Set(j, path, v))
    decreases |path|
  {
    if |path| > 1 {
      SetKeepsWellFormed(if path[0] in j.fields then j.fields[path[0]] else EMPTY, path[1..], v);
    }
  }

  lemma {:induction false} GetWellFormed(j: Json, path: seq<string>)
    requires WellFormed(j)
    ensures WellFormed(Get(j, path))
    decreases |path|
  {
    if path != [] && j.Record? { GetWellFormed(Field(j, path[0]), path[1..]); }
  }

  /** The keys of all records in the document are in order. */
  ghost predicate AllOrdered(j: Json) {
    j.Record? ==> Ordered(j.keys) && forall k :: k in j.fields ==> AllOrdered(j.fields[k])
  }

  lemma {:induction false} SetKeepsOrdered(j: Json, path: seq<string>, v: Json)
    requires WellFormed(j) && AllOrdered(j) && AllOrdered(v) && Settable(j, path)
    ensures AllOrdered(Set(j, path, v))
    decreases |path|
  {
    hide IsInherited, Insert, Ordered;
    if path[0] !in j.fields { InsertOrdered(j.keys, path[0]); }
    if |path| > 1 {
      assert Ordered(EMPTY.keys) by { OrderedNothing(); }
      SetKeepsOrdered(if path[0] in j.fields then j.fields[path[0]] else EMPTY, path[1..], v);
    }
  }

  lemma OrderedNothing()
    ensures Ordered([])
  {
  }

  /** What was written is read back. */
  lemma {:induction false} GetAfterSet(j: Json, path: seq<string>, v: Json)
    requires Settable(j, path)
    ensures Get(Set(j, path, v), path) == v
    decreases |path|
  {
    if |path| > 1 {
      GetAfterSet(if path[0] in j.fields then j.fields[path[0]] else EMPTY, path[1..], v);
    }
  }

  /** Writing leaves alone every path that neither leads to nor comes from the one written. */
  lemma {:induction false} GetElsewhere(j: Json, path: seq<string>, v: Json, other: seq<string>)
    requires Settable(j, path) && !(path <= other) && !(other <= path)
    ensures Get(Set(j, path, v), other) == Get(j, other)
    decreases |path|
  {
    hide IsInherited, Insert;
    if path[0] == other[0] {
      assert path == [path[0]] + path[1..] && other == [other[0]] + other[1..];
      var child := if path[0] in j.fields then j.fields[path[0]] else EMPTY;
      GetElsewhere(child, path[1..], v, other[1..]);
      if path[0] !in j.fields { assert Get(EMPTY, other[1..]) == Get(Undefined, other[1..]); }
    }
  }

  lemma WithAfterWith(j: Json, k: string, v: Json, w: Json)
    requires j.Record?
    ensures With(With(j, k, v), k, w) == With(j, k, w) && With(j, k, v).fields[k] == v
  {
    assert j.fields[k := v][k := w] == j.fields[k := w];
  }

  /** Fields with indices for names may be written in any order. */
  lemma IndicesInAnyOrder(j: Json, k: string, v: Json, l: string, w: Json)
    requires j.Record? && IsIndex(k) && IsIndex(l) && k != l && k !in j.fields && l !in j.fields
    ensures With(With(j, k, v), l, w) == With(With(j, l, w), k, v)
  {
    hide *;
    InsertTwice(j.keys, k, l);
    WithNew(j, k, v);
    WithNew(j, l, w);
    WithNew(With(j, k, v), l, w);
    WithNew(With(j, l, w), k, v);
    assert j.fields[k := v][l := w] == j.fields[l := w][k := v];
  }

  lemma WithNew(j: Json, k: string, v: Json)
    requires j.Record? && k !in j.fields
    ensures With(j, k, v) == Record(Insert(j.keys, k), j.fields[k := v])
  {
    hide Insert;
  }

  lemma {:induction false} InsertTwice(keys: seq<string>, k: string, l: string)
    requires IsIndex(k) && IsIndex(l) && k != l
    ensures Insert(Insert(keys, k), l) == Insert(Insert(keys, l), k)
  {
    if NumberOf(k) == NumberOf(l) { NumbersDiffer(k, l); }
    hide IsIndex;
    if keys != [] { InsertTwice(keys[1..], k, l); }
  }

  /** Only one text is the index for a number. */
  lemma NumbersDiffer(k: string, l: string)
    requires IsIndex(k) && IsIndex(l) && NumberOf(k) == NumberOf(l)
    ensures k == l
  {
    if k[0] == '0' || l[0] == '0' {
      if k[0] != '0' { NumberPositive(k); }
      if l[0] != '0' { NumberPositive(l); }
    } else {
      SameNumber(k, l);
    }
  }

  lemma {:induction false} NumberPositive(k: string)
    requires IsDigits(k) && k != "" && k[0] != '0'
    ensures NumberOf(k) > 0
  {
    if |k| > 1 { NumberPositive(k[..|k| - 1]); }
  }

  lemma {:induction false} SameNumber(k: string, l: string)
    requires IsDigits(k) && IsDigits(l) && (k != "" ==> k[0] != '0') && (l != "" ==> l[0] != '0')
    requires NumberOf(k) == NumberOf(l)
    ensures k == l
  {
    if k != "" { NumberPositive(k); }
    if l != "" { NumberPositive(l); }
    if k != "" && l != "" {
      SameNumber(k[..|k| - 1], l[..|l| - 1]);
      assert k == k[..|k| - 1] + [k[|k| - 1]] && l == l[..|l| - 1] + [l[|l| - 1]];
    }
  }

  /** The last of two writes to a path wins, and the first has no other effect. */
  lemma {:induction false} SetAfterSet(j: Json, path: seq<string>, v: Json, w: Json)
    requires Settable(j, path)
    ensures Settable(Set(j, path, v), path) && Set(Set(j, path, v), path, w) == Set(j, path, w)
    decreases |path|
  {
    if |path| > 1 {
      var child := if path[0] in j.fields then j.fields[path[0]] else EMPTY;
      SetAfterSet(child, path[1..], v, w);
      WithAfterWith(j, path[0], Set(child, path[1..], v), Set(child, path[1..], w));
    } else {
      WithAfterWith(j, path[0], v, w);
    }
  }

  /** Writing what is there already changes nothing. */
  lemma {:induction false} SetWhatIsThere(j: Json, path: seq<string>)
    requires Settable(j, path) && Get(j, path) != Undefined
    ensures Set(j, path, Get(j, path)) == j
    decreases |path|
  {
    if |path| > 1 {
      UndefinedFurther(path[1..]);
      SetWhatIsThere(j.fields[path[0]], path[1..]);
    }
    assert j.fields[path[0] := j.fields[path[0]]] == j.fields;
  }

  lemma UndefinedFurther(path: seq<string>)
    ensures Get(Undefined, path) == Undefined
  {
  }

  // ---------------------------------------------------------------- one step at a time

  /** There is something at each step of `path`. */
  predicate Present(j: Json, path: seq<string>)
    decreases |path|
  {
    path != [] ==> j.Record? && path[0] in j.fields && Present(j.fields[path[0]], path[1..])
  }

  lemma {:induction false} SettableFrom(j: Json, path: seq<string>, rest: seq<string>)
    requires rest != [] && Present(j, path)
    ensures Settable(j, path + rest) <==> Settable(Get(j, path), rest)
    decreases |path|
  {
    if path == [] {
      assert path + rest == rest;
    } else {
      assert (path + rest)[1..] == path[1..] + rest;
      SettableFrom(j.fields[path[0]], path[1..], rest);
    }
  }

  lemma {:induction false} EmptySettable(path: seq<string>)
    requires path != []
    ensures Settable(EMPTY, path) <==> Makeable(path)
  {
    hide IsInherited;
    if |path| > 1 {
      EmptySettable(path[1..]);
      assert Makeable(path) <==> !IsInherited(path[0]) && Makeable(path[1..]) by {
        assert forall i :: 0 < i < |path| ==> path[i] == path[1..][i - 1];
      }
    }
  }

  /** Making a missing record on the way first does not change the outcome. */
  lemma {:induction false} MakeOnTheWay(j: Json, path: seq<string>, k: string, rest: seq<string>, v: Json)
    requires Present(j, path) && Get(j, path).Record? && k !in Get(j, path).fields && rest != [] && !IsInherited(k)
    ensures Settable(j, path + [k])
    ensures Settable(Set(j, path + [k], EMPTY), path + [k] + rest) <==> Settable(j, path + [k] + rest)
    ensures Settable(j, path + [k] + rest) ==>
              Set(Set(j, path + [k], EMPTY), path + [k] + rest, v) == Set(j, path + [k] + rest, v)
    decreases |path|
  {
    hide IsInherited;
    if path != [] {
      var child, further := j.fields[path[0]], path[1..] + [k];
      assert (path + [k])[1..] == further && (path + [k] + rest)[1..] == further + rest;
      MakeOnTheWay(child, path[1..], k, rest, v);
      if Settable(child, further + rest) {
        WithAfterWith(j, path[0], Set(child, further, EMPTY), Set(child, further + rest, v));
      }
    } else {
      assert (path + [k] + rest)[1..] == rest;
      if Settable(EMPTY, rest) { WithAfterWith(j, k, EMPTY, Set(EMPTY, rest, v)); }
    }
  }

  // ---------------------------------------------------------------- writes that are refused

  /** What a write that is refused leaves: records are made up to where an inherited name stops it. */
  function Leftover(j: Json, path: seq<string>): Json
    decreases |path|
  {
    if |path| <= 1 || !j.Record? then j
    else if path[0] in j.fields then With(j, path[0], Leftover(j.fields[path[0]], path[1..]))
    else if IsInherited(path[0]) then j
    else With(j, path[0], Leftover(EMPTY, path[1..]))
  }

  lemma {:induction false} LeftoverWellFormed(j: Json, path: seq<string>)
    requires WellFormed(j)
    ensures WellFormed(Leftover(j, path))
    decreases |path|
  {
    hide IsInherited, Insert;
    if |path| > 1 && j.Record? {
      LeftoverWellFormed(if path[0] in j.fields then j.fields[path[0]] else EMPTY, path[1..]);
      if path[0] !in j.fields { InsertedKeys(j.keys, path[0]); }
    }
  }

  lemma InsertedKeys(keys: seq<string>, k: string)
    ensures forall l :: l in Insert(keys, k) <==> l in keys || l == k
    ensures k !in keys && Different(keys) ==> Different(Insert(keys, k))
  {
  }

  lemma WithSame(j: Json, k: string)
    requires j.Record? && k in j.fields
    ensures With(j, k, j.fields[k]) == j
  {
    assert j.fields[k := j.fields[k]] == j.fields;
  }

  /** Nothing is left behind without an inherited name on the way. */
  lemma {:induction false} LeftoverOnlyBefore(j: Json, path: seq<string>)
    requires !Settable(j, path) && Makeable(path)
    ensures Leftover(j, path) == j
    decreases |path|
  {
    hide IsInherited, Insert;
    if |path| > 1 && j.Record? {
      assert Makeable(path[1..]) by { assert forall i :: 0 <= i < |path| - 1 ==> path[1..][i] == path[i + 1]; }
      assert !IsInherited(path[0]);
      EmptySettable(path[1..]);
      if path[0] in j.fields {
        LeftoverOnlyBefore(j.fields[path[0]], path[1..]);
        WithSame(j, path[0]);
      } else {
        assert false;
      }
    }
  }

  /** Making a record on the way does not change what is left when the write is refused later. */
  lemma {:induction false} LeftoverOnTheWay(j: Json, path: seq<string>, k: string, rest: seq<string>)
    requires Present(j, path) && Get(j, path).Record? && k !in Get(j, path).fields && rest != [] && !IsInherited(k)
    ensures Settable(j, path + [k])
    ensures Leftover(Set(j, path + [k], EMPTY), path + [k] + rest) == Leftover(j, path + [k] + rest)
    decreases |path|
  {
    hide IsInherited, Insert;
    if path != [] {
      var child, further := j.fields[path[0]], path[1..] + [k];
      assert (path + [k])[1..] == further && (path + [k] + rest)[1..] == further + rest;
      LeftoverOnTheWay(child, path[1..], k, rest);
      WithAfterWith(j, path[0], Set(child, further, EMPTY), Leftover(child, further + rest));
    } else {
      assert (path + [k] + rest)[1..] == rest;
      WithAfterWith(j, k, EMPTY, Leftover(EMPTY, rest));
    }
  }

  /** At the end of `path` there is nothing to go on with. */
  predicate StopsAt(j: Json, path: seq<string>, rest: seq<string>) {
    var at := Get(j, path);
    !at.Record? || (|rest| > 1 && rest[0] !in at.fields && IsInherited(rest[0]))
  }

  lemma {:induction false} LeftoverHere(j: Json, path: seq<string>, rest: seq<string>)
    requires Present(j, path) && rest != [] && StopsAt(j, path, rest)
    ensures !Settable(j, path + rest) && Leftover(j, path + rest) == j
    decreases |path|
  {
    hide IsInherited, Insert;
    if path == [] {
      assert path + rest == rest;
    } else {
      assert (path + rest)[1..] == path[1..] + rest;
      LeftoverHere(j.fields[path[0]], path[1..], rest);
      WithSame(j, path[0]);
    }
  }

  // ---------------------------------------------------------------- what a write does to other paths

  /** After a write of something that is no record, exactly the paths through it can no longer be written. */
  lemma {:induction false} SettableAfterSet(j: Json, path: seq<string>, v: Json, other: seq<string>)
    requires Settable(j, path) && !v.Record? && other != []
    ensures Set(j, path, v).Record?
    ensures Settable(Set(j, path, v), other) <==> Settable(j, other) && !(path < other)
    decreases |path|
  {
    if |path| > 1 && |other| > 1 && path[0] == other[0] {
      assert path == [path[0]] + path[1..] && other == [other[0]] + other[1..];
      SettableAfterSet(if path[0] in j.fields then j.fields[path[0]] else EMPTY, path[1..], v, other[1..]);
    }
  }

  /** Nothing is found beyond something that is no record. */
  lemma {:induction false} NothingBeyond(j: Json, path: seq<string>, v: Json, further: seq<string>)
    requires Settable(j, path) && !v.Record? && path < further
    ensures Get(Set(j, path, v), further) == Undefined
    decreases |path|
  {
    assert further[0] == path[0];
    if |path| > 1 {
      assert path[1..] < further[1..];
      NothingBeyond(if path[0] in j.fields then j.fields[path[0]] else EMPTY, path[1..], v, further[1..]);
    }
  }

  /** The record at a path, or an empty one if there is none. */
  function RecordAt(j: Json, path: seq<string>): Json {
    if Get(j, path).Record? then Get(j, path) else EMPTY
  }

  /** A write further down is a write to the record on the way. */
  lemma {:induction false} GetOnTheWay(j: Json, path: seq<string>, rest: seq<string>, v: Json)
    requires rest != [] && Settable(j, path + rest)
    ensures Settable(RecordAt(j, path), rest)
    ensures Get(Set(j, path + rest, v), path) == Set(RecordAt(j, path), rest, v)
    decreases |path|
  {
    hide IsInherited, Insert;
    if path == [] {
      assert path + rest == rest;
    } else {
      assert (path + rest)[1..] == path[1..] + rest;
      if path[0] in j.fields {
        GetOnTheWay(j.fields[path[0]], path[1..], rest, v);
      } else {
        GetOnTheWay(EMPTY, path[1..], rest, v);
        UndefinedFurther(path[1..]);
        if path[1..] != [] { UndefinedFurther(path[1..][1..]); }
      }
    }
  }

  // ---------------------------------------------------------------- comparing documents by their text

  function ShownKeys(keys: seq<string>, fields: map<string, Json>): seq<string> {
    if keys == [] then []
    else
      var init, last := ShownKeys(keys[..|keys| - 1], fields), keys[|keys| - 1];
      if last in fields && fields[last] != Undefined then init + [last] else init
  }

  /** What the text of a document shows of it: fields without a value are left out. */
  function Shown(j: Json): Json {
    if j.Record? then
      Record(ShownKeys(j.keys, j.fields), map k | k in j.fields && j.fields[k] != Undefined :: Shown(j.fields[k]))
    else j
  }

  /** The texts of the two documents are equal. */
  predicate Same(a: Json, b: Json) {
    Shown(a) == Shown(b)
  }

  predicate IsArray(j: Json) {
    j.Other? && "[" <= j.text
  }

  /** Values that are compared by identity: no two places of the documents hold the same one. */
  predicate ByIdentity(j: Json) {
    j.Record? || IsArray(j)
  }

  /** Values at two different places are the same to `===`. */
  predicate Identical(a: Json, b: Json) {
    a == b && !ByIdentity(a)
  }

  lemma SameAsPlain(a: Json, b: Json)
    requires !a.Record? || !b.Record?
    ensures Same(a, b) <==> a == b
  {
  }
}
