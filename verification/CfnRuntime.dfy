/** JavaScript values, and what generated validators say about them when they run. */
module CfnRuntime {
  import opened Options
  import opened CfnSpec
  import opened CfnCode
  import opened CfnStructure
  import opened CfnGenerator

  /** A value with only its own fields. The keys of an object are distinct. */
  datatype Js =
    | Undefined
    | Null
    | Text(s: string)
    | Number(x: real)
    | Boolean(b: bool)
    | Date(valid: bool)
    | List(items: seq<Js>)
    | Object(entries: seq<Entry>)

  datatype Entry = Entry(key: string, value: Js)

  predicate IsMissing(v: Js) {
    v.Undefined? || v.Null?
  }

  /** A stand-in that CloudFormation replaces: an object with a single entry of such a name. */
  predicate IsIntrinsic(v: Js) {
    v.Object? && |v.entries| == 1 && (v.entries[0].key == "Ref" || "Fn::" <= v.entries[0].key)
  }

  predicate CanInspect(v: Js) {
    !IsMissing(v) && !IsIntrinsic(v)
  }

  predicate IsObjectType(v: Js) {
    v.Null? || v.Date? || v.List? || v.Object?
  }

  function Find(entries: seq<Entry>, key: string): Js {
    if entries == [] then Undefined else if entries[0].key == key then entries[0].value else Find(entries[1..], key)
  }

  /** A field of a value that is not missing. */
  function FieldOf(v: Js, name: string): Js {
    match v
    case Object(entries) => Find(entries, name)
    case List(items) => if name == "length" then Number(|items| as real) else Undefined
    case Text(s) => if name == "length" then Number(|s| as real) else Undefined
    case _ => Undefined
  }

  /** What a loop over the keys of a value that is not missing finds: strings have a key for each character. */
  function Elements(v: Js): seq<Js> {
    match v
    case Object(entries) => Values(entries)
    case List(items) => items
    case Text(s) => Characters(s)
    case _ => []
  }

  function Values(entries: seq<Entry>): (r: seq<Js>)
    ensures |r| == |entries| && forall i :: 0 <= i < |r| ==> r[i] == entries[i].value
  {
    seq(|entries|, i requires 0 <= i < |entries| => entries[i].value)
  }

  function Characters(s: string): (r: seq<Js>)
    ensures |r| == |s| && forall i :: 0 <= i < |r| ==> r[i] == Text([s[i]])
  {
    seq(|s|, i requires 0 <= i < |s| => Text([s[i]]))
  }

  // ---------------------------------------------------------------- what passes for a list

  predicate IsTruthy(v: Js) {
    !IsMissing(v) && v != Text("") && v != Number(0.0) && v != Boolean(false)
  }

  /** A list, or an object that has a field with the name of a function of lists. */
  predicate IsListLike(v: Js) {
    v.List? || (v.Object? && IsTruthy(FieldOf(v, "forEach")))
  }

  /** The number that a value counts as, if it is one. How texts, lists, dates and objects count is left open. */
  ghost function AsNumber(v: Js): Option<real> {
    match v
    case Number(x) => Some(x)
    case Boolean(b) => Some(if b then 1.0 else 0.0)
    case Null => Some(0.0)
    case Undefined => None
    case _ => var r: Option<real> :| true; r
  }

  /** How many of 0, 1, 2 and so on are less than `v`. */
  ghost function CountUpTo(v: Js): nat {
    match AsNumber(v)
    case None => 0
    case Some(x) => if x <= 0.0 then 0 else -((-x).Floor)
  }

  /** A loop up to a number runs for the indices that are less. */
  lemma CountsUpTo(x: real, i: nat)
    ensures i < CountUpTo(Number(x)) <==> i as real < x
  {
    if x > 0.0 { assert ((-x).Floor) as real <= -x < (-x).Floor as real + 1.0; }
  }

  function Decimal(i: nat): string {
    if i < 10 then [DIGITS[i]] else Decimal(i / 10) + [DIGITS[i % 10]]
  }

  const DIGITS := "0123456789"

  /** What a loop over the indices below the length of something that passes for a list finds. */
  ghost function Items(v: Js): seq<Js> {
    match v
    case List(items) => items
    case Object(entries) =>
        seq(CountUpTo(FieldOf(v, "length")),
            i requires 0 <= i < CountUpTo(FieldOf(v, "length")) => FieldOf(v, Decimal(i)))
    case _ => []
  }

  // ---------------------------------------------------------------- sizes

  /** Fields are smaller than what they are fields of, and elements are not larger. */
  function Size(v: Js): nat {
    match v
    case Object(entries) => 2 + SizeOfEntries(entries)
    case List(items) => 2 + SizeOfItems(items)
    case Text(_) => 2
    case Undefined => 0
    case Null => 0
    case _ => 1
  }

  function SizeOfEntries(entries: seq<Entry>): nat {
    if entries == [] then 0 else Size(entries[0].value) + SizeOfEntries(entries[1..])
  }

  function SizeOfItems(items: seq<Js>): nat {
    if items == [] then 0 else Size(items[0]) + SizeOfItems(items[1..])
  }

  lemma {:induction false} EntrySmaller(entries: seq<Entry>, key: string, i: nat)
    ensures Size(Find(entries, key)) <= SizeOfEntries(entries)
    ensures i < |entries| ==> Size(entries[i].value) <= SizeOfEntries(entries)
  {
    if entries != [] { EntrySmaller(entries[1..], key, if i > 0 then i - 1 else 0); }
  }

  lemma {:induction false} ItemSmaller(items: seq<Js>, i: nat)
    requires i < |items|
    ensures Size(items[i]) <= SizeOfItems(items)
  {
    if i > 0 { ItemSmaller(items[1..], i - 1); }
  }

  lemma PartsSmaller(v: Js)
    ensures !IsMissing(v) ==> forall name :: Size(FieldOf(v, name)) < Size(v)
    ensures forall i :: 0 <= i < |Elements(v)| ==> Size(Elements(v)[i]) <= Size(v)
    ensures forall i :: 0 <= i < |Items(v)| ==> Size(Items(v)[i]) <= Size(v)
  {
    forall name ensures !IsMissing(v) ==> Size(FieldOf(v, name)) < Size(v) {
      if v.Object? { EntrySmaller(v.entries, name, 0); }
    }
    forall i | 0 <= i < |Elements(v)| ensures Size(Elements(v)[i]) <= Size(v) {
      if v.Object? { EntrySmaller(v.entries, "", i); }
      if v.List? { ItemSmaller(v.items, i); }
    }
    assert v.List? ==> Elements(v) == Items(v);
  }

  // ---------------------------------------------------------------- verdicts

  datatype Verdict = Pass | Fail | Throws

  /** The first verdict other than `usual`. */
  function FirstOther(vs: seq<Verdict>, usual: Verdict): Verdict {
    if vs == [] then usual else if vs[0] != usual then vs[0] else FirstOther(vs[1..], usual)
  }

  /** Elements are looked at until one does not pass. */
  function InTurn(vs: seq<Verdict>): Verdict {
    FirstOther(vs, Pass)
  }

  /** Alternatives are tried until one does not fail. */
  function Either(vs: seq<Verdict>): Verdict {
    if vs == [] then Pass else FirstOther(vs, Fail)
  }

  /** Everything is looked at, and failures are collected. */
  function Together(vs: seq<Verdict>): Verdict {
    if Throws in vs then Throws else if Fail in vs then Fail else Pass
  }

  function PassIf(b: bool): Verdict {
    if b then Pass else Fail
  }

  lemma {:induction false} FirstOtherIs(vs: seq<Verdict>, usual: Verdict)
    ensures FirstOther(vs, usual) == usual <==> forall i :: 0 <= i < |vs| ==> vs[i] == usual
    ensures FirstOther(vs, usual) != usual ==> FirstOther(vs, usual) in vs
  {
    if vs != [] {
      FirstOtherIs(vs[1..], usual);
      assert forall i :: 0 < i < |vs| ==> vs[i] == vs[1..][i - 1];
    }
  }

  lemma EitherOne(v: Verdict)
    ensures Either([v]) == v
  {
    assert [v][1..] == [];
    assert FirstOther([v], Fail) == if v != Fail then v else FirstOther([v][1..], Fail);
  }

  // ---------------------------------------------------------------- running a validator

  /** The validators of the core library for single values. */
  function BuiltIn(t: CodeName, v: Js): Verdict
    requires IsBuiltIn(t)
  {
    if t.CfnTag? then PassIf(CanInspect(v) ==> !IsMissing(FieldOf(v, "key")) && !IsMissing(FieldOf(v, "value")))
    else match t.name
      case "boolean" => PassIf(CanInspect(v) ==> v.Boolean?)
      case "number" => PassIf(CanInspect(v) ==> v.Number?)
      case "string" => PassIf(CanInspect(v) ==> v.Text?)
      case "any" => PassIf(CanInspect(v) ==> IsObjectType(v))
      case _ => if CanInspect(v) then PassIf(v.Date? && v.valid) else if v.Undefined? then Pass else Throws
  }

  ghost function BodyOf(code: seq<Emitted>, fn: Fn): (e: Emitted)
    requires Defines(code, fn)
    ensures e in code && e.Function? && e.fn == fn
  {
    var e :| e in code && e.Function? && e.fn == fn;
    e
  }

  /** What the validator expression `e` says about `v`. A function that does not exist throws. */
  ghost function Run(code: seq<Emitted>, e: Expr, v: Js): Verdict
    decreases Size(v), e
  {
    PartsSmaller(v);
    match e
    case Call(fn) =>
      if IsBuiltIn(fn.of) then BuiltIn(fn.of, v)
      else if !Defines(code, fn) then Throws
      else if !CanInspect(v) then Pass
      else
        var uses := BodyOf(code, fn).uses;
        Together([PassIf(IsObjectType(v))] + seq(|uses|, i requires 0 <= i < |uses| =>
          if uses[i].OfField? then
            Together([PassIf(uses[i].required ==> !IsMissing(FieldOf(v, uses[i].name))),
                      Run(code, uses[i].expr, FieldOf(v, uses[i].name))])
          else Throws))
    case ListOf(item) =>
      if !CanInspect(v) then Pass
      else if !IsListLike(v) then Fail
      else InTurn(seq(|Items(v)|, i requires 0 <= i < |Items(v)| => Run(code, item, Items(v)[i])))
    case MapOf(item) =>
      if !CanInspect(v) then Pass
      else InTurn(seq(|Elements(v)|, i requires 0 <= i < |Elements(v)| => Run(code, item, Elements(v)[i])))
    case StringArray => Throws
    case UnionOf(_, members) =>
      Either(seq(|members|, i requires 0 <= i < |members| => Run(code, members[i], v)))
  }
}
