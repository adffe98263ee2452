/** The CloudFormation resource specification, and how the code generator reads a property. */
module CfnSpec {
  import opened Options

  /** The name by which generated code knows a property, whether it is required, and the fields
      that tell its type, each of which may be absent. */
  datatype Property = Property(name: string, required: bool,
                               primitiveType: Option<string>, typ: Option<string>,
                               itemType: Option<string>, primitiveItemType: Option<string>,
                               primitiveItemItemType: Option<string>,
                               types: Option<seq<string>>, primitiveTypes: Option<seq<string>>,
                               itemTypes: Option<seq<string>>, primitiveItemTypes: Option<seq<string>>)
  {
    predicate IsPrimitive() { NonEmpty(primitiveType) }
    predicate IsComplex() { typ.Some? && typ.value != "Map" && typ.value != "List" }
    predicate IsList() { typ == Some("List") }
    predicate IsMap() { typ == Some("Map") }
    predicate IsComplexList() { IsList() && NonEmpty(itemType) }
    predicate IsPrimitiveList() { IsList() && NonEmpty(primitiveItemType) }
    predicate IsPrimitiveMap() { IsMap() && NonEmpty(primitiveItemType) }
    predicate IsMapOfListsOfPrimitives() { IsMap() && itemType == Some("List") }
    predicate IsMapOfStructs() { IsMap() && !IsPrimitiveMap() && !IsMapOfListsOfPrimitives() }
    predicate IsUnion() { itemTypes.Some? || primitiveTypes.Some? || types.Some? }
    predicate IsCollection() { IsList() || IsMap() || (IsUnion() && (itemTypes.Some? || primitiveItemTypes.Some?)) }
  }

  predicate NonEmpty(s: Option<string>) { s.Some? && s.value != "" }

  function OrEmpty<T>(s: Option<seq<T>>): seq<T> { if s.Some? then s.value else [] }

  /** The named and then the primitive types that `p` accepts as a single value. */
  function ScalarTypeNames(p: Property): seq<string> {
    (if p.IsComplex() then [p.typ.value] else if p.IsUnion() then OrEmpty(p.types) else [])
    + (if p.IsPrimitive() then [p.primitiveType.value] else if p.IsUnion() then OrEmpty(p.primitiveTypes) else [])
  }

  /** The named and then the primitive types of the elements that `p` accepts. */
  function ItemTypeNames(p: Property): seq<string>
    requires ItemsNamed(p)
  {
    (if p.IsComplexList() || p.IsMapOfStructs() then [p.itemType.value]
     else if p.IsUnion() then OrEmpty(p.itemTypes) else [])
    + (if p.IsMapOfListsOfPrimitives() then [p.primitiveItemItemType.value + "[]"]
       else if p.IsPrimitiveList() || p.IsPrimitiveMap() then [p.primitiveItemType.value]
       else if p.IsUnion() then OrEmpty(p.primitiveItemTypes) else [])
  }

  predicate ItemsNamed(p: Property) {
    (p.IsMapOfStructs() ==> p.itemType.Some?) && (p.IsMapOfListsOfPrimitives() ==> p.primitiveItemItemType.Some?)
  }

  /** A collection names what it holds, and anything else names what it is. */
  predicate WellShaped(p: Property) {
    ItemsNamed(p) && if p.IsCollection() then ItemTypeNames(p) != [] else ScalarTypeNames(p) != []
  }

  /** A property type is a record, or another name for a property. */
  datatype PropertyType = Record(properties: seq<Property>) | Alias(property: Property)

  /** The name of a property type, scoped to a resource. */
  datatype TypeKey = TypeKey(resource: string, name: string)

  /** The names are listed in sorted order. */
  datatype Spec = Spec(resourceNames: seq<string>, resourceTypes: map<string, seq<Property>>,
                       propertyTypeNames: seq<TypeKey>, propertyTypes: map<TypeKey, PropertyType>)

  ghost predicate Distinct<T(!new)>(s: seq<T>) {
    forall i, j :: 0 <= i < j < |s| ==> s[i] != s[j]
  }

  ghost predicate WellFormed(spec: Spec) {
    && Distinct(spec.resourceNames) && (forall r :: r in spec.resourceNames <==> r in spec.resourceTypes)
    && Distinct(spec.propertyTypeNames) && (forall k :: k in spec.propertyTypeNames <==> k in spec.propertyTypes)
    && (forall r :: r in spec.resourceTypes ==> forall p :: p in spec.resourceTypes[r] ==> WellShaped(p))
    && (forall k :: k in spec.propertyTypes ==> match spec.propertyTypes[k]
          case Record(properties) => forall p :: p in properties ==> WellShaped(p)
          case Alias(property) => WellShaped(property))
  }

  /** What generated code calls a type. `Props` is the interface with the properties of a resource. */
  datatype CodeName =
    | Primitive(name: string)
    | CfnTag
    | Props(resource: string)
    | PropertyTypeName(resource: string, name: string)
  {
    function ClassName(): string {
      match this
      case Primitive(name) => name
      case CfnTag => "CfnTag"
      case Props(resource) => resource + "Props"
      case PropertyTypeName(_, name) => name + "Property"
    }
  }

  function SpecTypeToCodeType(resource: string, t: string): CodeName
    decreases |t|
  {
    if |t| >= 2 && t[|t| - 2..] == "[]" then Primitive(SpecTypeToCodeType(resource, t[..|t| - 2]).ClassName() + "[]")
    else match t
      case "Boolean" => Primitive("boolean")
      case "Double" => Primitive("number")
      case "Integer" => Primitive("number")
      case "Json" => Primitive("any")
      case "Long" => Primitive("number")
      case "String" => Primitive("string")
      case "Timestamp" => Primitive("Date")
      case "Tag" => CfnTag
      case _ => PropertyTypeName(resource, t)
  }

  function CodeTypes(resource: string, names: seq<string>): (r: seq<CodeName>)
    ensures |r| == |names|
  {
    seq(|names|, i requires 0 <= i < |names| => SpecTypeToCodeType(resource, names[i]))
  }

  function ScalarTypes(resource: string, p: Property): seq<CodeName> {
    CodeTypes(resource, ScalarTypeNames(p))
  }

  function ItemTypes(resource: string, p: Property): seq<CodeName>
    requires WellShaped(p)
  {
    CodeTypes(resource, ItemTypeNames(p))
  }

  /** The element type of a map of lists, whose code type ends in `[]`. */
  function ListElement(t: CodeName): CodeName {
    var s := t.ClassName();
    Primitive(if |s| < 2 then "" else s[..|s| - 2])
  }

  predicate IsAlias(spec: Spec, t: CodeName) {
    t.PropertyTypeName? && TypeKey(t.resource, t.name) in spec.propertyTypes
      && spec.propertyTypes[TypeKey(t.resource, t.name)].Alias?
  }

  function AliasOf(spec: Spec, t: CodeName): Property
    requires IsAlias(spec, t)
  {
    spec.propertyTypes[TypeKey(t.resource, t.name)].property
  }

  /** The types a property is made of, and whether they are alternatives of a union. */
  function Parts(resource: string, p: Property): (r: (seq<CodeName>, bool))
    requires WellShaped(p)
  {
    var scalars := ScalarTypes(resource, p);
    var items := ItemTypes(resource, p);
    if scalars != [] && items != [] then (scalars + items, true)
    else if !p.IsCollection() then (scalars, |scalars| > 1)
    else if p.IsMapOfListsOfPrimitives() then ([ListElement(items[0])], false)
    else (items, |items| > 1)
  }

  /** Inlining the aliases in `p`, or `t` if it is one, ends within `n` levels. */
  ghost predicate Inlines(spec: Spec, resource: string, p: Property, n: nat)
    requires WellFormed(spec) && WellShaped(p)
    decreases n, 1
  {
    forall t :: t in Parts(resource, p).0 ==> InlinesAtom(spec, resource, t, n)
  }

  ghost predicate InlinesAtom(spec: Spec, resource: string, t: CodeName, n: nat)
    requires WellFormed(spec)
    decreases n, 0
  {
    IsAlias(spec, t) ==> n > 0 && Inlines(spec, resource, AliasOf(spec, t), n - 1)
  }

  /** A type with functions of its own in the generated code. */
  predicate HasFunctions(spec: Spec, t: CodeName) {
    match t
    case Props(r) => r in spec.resourceTypes && spec.resourceTypes[r] != []
    case PropertyTypeName(r, name) =>
        r in spec.resourceTypes && TypeKey(r, name) in spec.propertyTypes
        && spec.propertyTypes[TypeKey(r, name)].Record?
    case _ => false
  }

  function PropertiesOf(spec: Spec, t: CodeName): seq<Property>
    requires HasFunctions(spec, t)
  {
    if t.Props? then spec.resourceTypes[t.resource] else spec.propertyTypes[TypeKey(t.resource, t.name)].properties
  }

  /** The types that have a validator, a mapper and a factory in the core library. */
  predicate IsBuiltIn(t: CodeName) {
    t.CfnTag? || (t.Primitive? && t.name in {"boolean", "number", "any", "string", "Date"})
  }
}
